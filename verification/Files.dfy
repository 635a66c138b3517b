/** Reading and writing files: _fs_read_file and _fs_write_file of kernel/fatfs/fatfs.c. */
module Files {
  import opened Words
  import opened Layout
  import opened Contents
  import opened FatStrings
  import opened LongNames
  import opened Directories
  import opened Access
  import opened Allocation
  import opened DirScan
  import opened DirInsert
  import opened Listings
  import opened Ownership
  import opened Volumes
  import opened Operations
  import opened FileBytes
  import opened FileIo
  import Arith

  // ----- reading

  /** The first n bytes of buf are those of the file from off on; the rest is as before. */
  ghost predicate Got(buf: seq<byte>, before: seq<byte>, secs: seq<Sector>, off: nat, n: nat) {
    |buf| == |before| && n <= |buf| && buf[..n] == Bytes(secs, off, n) && buf[n..] == before[n..]
  }

  lemma GotMore(buf: seq<byte>, buf': seq<byte>, before: seq<byte>, secs: seq<Sector>, off: nat, n: nat, m: nat)
    requires Got(buf, before, secs, off, n) && n + m <= |buf|
    requires buf' == buf[..n] + Bytes(secs, off + n, m) + buf[n + m..]
    ensures Got(buf', before, secs, off, n + m)
  {
    hide ByteOf;
    BytesJoin(secs, off, n, m);
    hide Bytes;
    assert buf'[n + m..] == buf[n + m..] == buf[n..][m..] == before[n..][m..] == before[n + m..];
    assert buf'[..n + m] == buf[..n] + Bytes(secs, off + n, m);
  }

  /** memcpy. */
  method CopyInto(buffer: array<byte>, at: nat, part: seq<byte>)
    requires at + |part| <= buffer.Length
    modifies buffer
    ensures buffer[..] == old(buffer[..at]) + part + old(buffer[at + |part|..])
  {
    for i := 0 to |part|
      invariant forall j :: 0 <= j < i ==> buffer[at + j] == part[j]
      invariant forall j :: 0 <= j < buffer.Length && !(at <= j < at + i) ==> buffer[j] == old(buffer[j])
    {
      buffer[at + i] := part[i];
    }
    assert buffer[..] == buffer[..at] + buffer[at..at + |part|] + buffer[at + |part|..];
  }

  /** What ReadFile needs of an open file whose chain holds the sectors secs. */
  ghost predicate Readable(fs: FatFs, file: OpenFile, ch: seq<u32>, secs: seq<Sector>)
    reads fs, fs.table, fs.disk, file
  {
    && ChainOf(fs, file.start, ch) && file.LookupOk(ch) && file.SectorOk(secs)
    && secs == SectorsOf(fs.geo, fs.State().data, ch) && file.len <= SECTOR_SIZE * |secs|
  }

  /** Whole sectors, straight into the buffer; none at the end of the chain. */
  method ReadWhole(fs: FatFs, file: OpenFile, buffer: array<byte>, at: nat, sector: u32, max: nat, ghost ch: seq<u32>,
      ghost secs: seq<Sector>)
    returns (n: nat)
    requires Readable(fs, file, ch, secs) && sector <= |secs| && sector < UNSET && max >= 1
    requires at + SECTOR_SIZE * max <= buffer.Length
    modifies file`lastIndex, file`lastCluster, fs.table, fs.disk, buffer
    ensures Readable(fs, file, ch, secs) && fs.State() == old(fs.State())
    ensures n <= max && sector + n <= |secs| && (n == 0 <==> sector == |secs|)
    ensures buffer[..] == old(buffer[..at]) + Bytes(secs, SECTOR_SIZE * sector, SECTOR_SIZE * n) +
            old(buffer[at + SECTOR_SIZE * n..])
  {
    hide ChainOf, OpenFile.LookupOk, OpenFile.SectorOk, ByteOf, Addrs, Pick, FatFs.State;
    var got;
    n, got := ReadSectors(fs, file, sector, max, ch, secs);
    if n == 0 {
      assert buffer[..at] + Bytes(secs, SECTOR_SIZE * sector, 0) + buffer[at..] == buffer[..];
      return;
    }
    RunOfSectors(secs, sector, n);
    CopyInto(buffer, at, Bytes(got, 0, SECTOR_SIZE * n));
  }

  /** Part of one sector, by way of the file's sector buffer; nothing at the end of the chain. */
  method ReadPart(fs: FatFs, file: OpenFile, buffer: array<byte>, at: nat, sector: u32, offset: nat, count: nat,
      ghost ch: seq<u32>, ghost secs: seq<Sector>)
    returns (ok: bool)
    requires Readable(fs, file, ch, secs) && sector <= |secs| && sector < UNSET && offset + count <= SECTOR_SIZE
    requires at + count <= buffer.Length
    modifies file`lastIndex, file`lastCluster, file`dataSector, file`dataAddress, fs.table, fs.disk, buffer
    ensures Readable(fs, file, ch, secs) && fs.State() == old(fs.State())
    ensures ok <==> sector < |secs|
    ensures !ok ==> buffer[..] == old(buffer[..])
    ensures ok ==>
              buffer[..] == old(buffer[..at]) + Bytes(secs, SECTOR_SIZE * sector + offset, count) +
                old(buffer[at + count..])
  {
    hide ChainOf, OpenFile.LookupOk, ByteOf, Addrs, Pick, FatFs.State, Bytes;
    ok := true;
    if file.dataAddress != sector {
      var n, got := ReadSectors(fs, file, sector, 1, ch, secs);
      ok := n != 0;
      if !ok {
        return;
      }
      file.dataSector, file.dataAddress := got[0], sector;
    }
    PartOfSector(secs, sector, offset, count);
    CopyInto(buffer, at, file.dataSector[offset..offset + count]);
  }

  /** One turn of the read loop: something is read unless the chain is at its end. */
  method ReadSome(fs: FatFs, file: OpenFile, buffer: array<byte>, at: nat, sector: u32, offset: nat, left: nat,
      ghost ch: seq<u32>, ghost secs: seq<Sector>)
    returns (ok: bool, copyCount: nat, sectors: nat)
    requires Readable(fs, file, ch, secs) && sector <= |secs| && sector < UNSET && offset < SECTOR_SIZE && left >= 1
    requires at + left <= buffer.Length
    modifies file`lastIndex, file`lastCluster, file`dataSector, file`dataAddress, fs.table, fs.disk, buffer
    ensures Readable(fs, file, ch, secs) && fs.State() == old(fs.State())
    ensures ok <==> sector < |secs|
    ensures !ok ==> buffer[..] == old(buffer[..])
    ensures ok ==> 1 <= copyCount <= left && SECTOR_SIZE * sector + offset + copyCount <= SECTOR_SIZE * |secs|
    ensures ok && copyCount < left ==> SECTOR_SIZE * (sector + sectors) == SECTOR_SIZE * sector + offset + copyCount
    ensures ok ==>
              buffer[..] == old(buffer[..at]) + Bytes(secs, SECTOR_SIZE * sector + offset, copyCount) +
                old(buffer[at + copyCount..])
  {
    hide Readable, ByteOf, FatFs.State, Bytes;
    if offset == 0 && left >= SECTOR_SIZE {
      ghost var before := buffer[..];
      sectors := ReadWhole(fs, file, buffer, at, sector, left / SECTOR_SIZE, ch, secs);
      ok, copyCount := sectors != 0, SECTOR_SIZE * sectors;
      assert before[..at] + [] + before[at..] == before;
    } else {
      copyCount := SECTOR_SIZE - offset;
      if copyCount > left {
        copyCount := left;
      }
      ok := ReadPart(fs, file, buffer, at, sector, offset, copyCount, ch, secs);
      sectors := 1;
    }
  }

  /**
   * How many bytes a read gives, for a chain that holds capacity bytes: the count is cut at the
   * length if offset and count, added in 32 bits, reach past it.
   */
  function BytesRead(len: u32, off: u32, count: u32, capacity: nat): nat
    requires len <= capacity
  {
    if off >= len then 0
    else if Wrap(off + count) > len then len - off
    else if off + count > capacity then capacity - off
    else count
  }

  /**
   * A read ends at the length of the file exactly if the sum does not wrap, or wraps to more than
   * the length, or the chain ends there too.
   */
  lemma ReadsToLength(len: u32, off: u32, count: u32, capacity: nat)
    requires off < len <= capacity
    ensures BytesRead(len, off, count, capacity) == (if off + count > len then len - off else count)
       <==> off + count < 0x1_0000_0000 || Wrap(off + count) > len || capacity == len
  {
  }

  /**
   * Ten bytes in a cluster of eight sectors: a read from byte 5 on with the largest count gives
   * 4091 bytes instead of 5.
   */
  lemma ReadsBeyond()
    ensures BytesRead(10, 5, 0xFFFF_FFFF, 4096) == 4091
  {
  }

  /** _fs_read_file: as many bytes of the file's sectors, from the offset on, as BytesRead says. */
  method ReadFile(fs: FatFs, file: OpenFile, buffer: array<byte>, off: u32, count: u32, ghost ch: seq<u32>,
      ghost secs: seq<Sector>)
    returns (bytesRead: nat)
    requires Readable(fs, file, ch, secs) && count <= buffer.Length
    modifies file`lastIndex, file`lastCluster, file`dataSector, file`dataAddress, fs.table, fs.disk, buffer
    ensures Readable(fs, file, ch, secs) && fs.State() == old(fs.State())
    ensures file.len <= SECTOR_SIZE * |secs| && bytesRead == BytesRead(file.len, off, count, SECTOR_SIZE * |secs|)
    ensures Got(buffer[..], old(buffer[..]), secs, off, bytesRead)
  {
    hide Readable, ByteOf, FatFs.State, Bytes, Got;
    GotNone(buffer[..], secs, off);
    bytesRead := 0;
    LengthFits(fs, file, ch, secs);
    if off >= file.len {
      return;
    }
    var left: nat := if Wrap(off + count) > file.len then file.len - off else count;
    var sector, offset := off / SECTOR_SIZE, off % SECTOR_SIZE;
    var ok := true;
    while bytesRead < left && ok
      invariant Readable(fs, file, ch, secs) && fs.State() == old(fs.State())
      invariant bytesRead <= left && 0 <= sector && 0 <= offset < SECTOR_SIZE
      invariant Got(buffer[..], old(buffer[..]), secs, off, bytesRead)
      invariant off + bytesRead <= SECTOR_SIZE * |secs| && (!ok ==> off + bytesRead == SECTOR_SIZE * |secs|)
      invariant bytesRead < left && ok ==> SECTOR_SIZE * sector + offset == off + bytesRead
      decreases left - bytesRead, ok
    {
      ghost var buf := buffer[..];
      var copyCount, sectors;
      ok, copyCount, sectors := ReadSome(fs, file, buffer, bytesRead, sector, offset, left - bytesRead, ch, secs);
      if ok {
        GotMore(buf, buffer[..], old(buffer[..]), secs, off, bytesRead, copyCount);
        sector, offset := sector + sectors, 0;
        bytesRead := bytesRead + copyCount;
      }
    }
  }

  lemma LengthFits(fs: FatFs, file: OpenFile, ch: seq<u32>, secs: seq<Sector>)
    requires Readable(fs, file, ch, secs)
    ensures file.len <= SECTOR_SIZE * |secs|
  {
  }

  lemma GotNone(buf: seq<byte>, secs: seq<Sector>, off: nat)
    ensures Got(buf, buf, secs, off, 0)
  {
    hide ByteOf;
    assert buf[..0] == Bytes(secs, off, 0);
  }

  // ----- writing

  /** The clusters that hold the bytes below end. */
  function Plan(g: Geometry, end: nat): nat
    requires g.sectorsPerCluster >= 1
  {
    var sectors := (end + SECTOR_SIZE - 1) / SECTOR_SIZE;
    (sectors + g.sectorsPerCluster - 1) / g.sectorsPerCluster
  }

  lemma PlanHolds(g: Geometry, end: nat)
    requires g.sectorsPerCluster >= 1
    ensures (end + SECTOR_SIZE - 1) / SECTOR_SIZE <= Plan(g, end) * g.sectorsPerCluster
    ensures forall n: nat :: end <= SECTOR_SIZE * (n * g.sectorsPerCluster) ==> Plan(g, end) <= n
  {
    var w := g.sectorsPerCluster;
    var sectors := (end + SECTOR_SIZE - 1) / SECTOR_SIZE;
    Arith.CellOf(sectors + w - 1, w);
    forall n: nat | end <= SECTOR_SIZE * (n * w) ensures Plan(g, end) <= n {
      assert sectors <= n * w;
      assert (n + 1) * w == n * w + w;
      Arith.DivBelow(sectors + w - 1, n + 1, w);
    }
  }

  /** The part of the first end bytes that fills whole sectors. */
  function Whole(end: nat): nat { end / SECTOR_SIZE * SECTOR_SIZE }

  lemma PlanLess(g: Geometry, a: nat, b: nat)
    requires g.sectorsPerCluster >= 1 && a <= b
    ensures Plan(g, a) <= Plan(g, b)
  {
    PlanHolds(g, a);
    PlanHolds(g, b);
    hide Plan;
    assert a <= SECTOR_SIZE * (Plan(g, b) * g.sectorsPerCluster);
  }

  /** m sectors behind k whole clusters. */
  lemma PlanBehind(g: Geometry, k: nat, m: nat)
    requires g.sectorsPerCluster >= 1
    ensures Plan(g, SECTOR_SIZE * (k * g.sectorsPerCluster + m)) ==
            k + (m + g.sectorsPerCluster - 1) / g.sectorsPerCluster
  {
    var n := k * g.sectorsPerCluster + m;
    assert (SECTOR_SIZE * n + SECTOR_SIZE - 1) / SECTOR_SIZE == n;
    Arith.CellsMore(k, m + g.sectorsPerCluster - 1, g.sectorsPerCluster);
  }

  /** At the end of the chain: whether the clusters for m more sectors are there. */
  lemma EnoughBehind(g: Geometry, T: seq<u32>, ch: seq<u32>, m: nat)
    requires g.sectorsPerCluster >= 1
    ensures Enough(g, T, ch, Plan(g, SECTOR_SIZE * (|ch| * g.sectorsPerCluster + m)))
       <==> (m + g.sectorsPerCluster - 1) / g.sectorsPerCluster <= |Free(g, T)|
  {
    hide Free, Plan;
    PlanBehind(g, |ch|, m);
    Arith.DivBelow(m + g.sectorsPerCluster - 1, 0, g.sectorsPerCluster);
  }

  /** A write in progress: of the bytes for off, n are in the file. */
  ghost predicate Underway(fs: FatFs, file: OpenFile, v0: Volume, t0: Tree, t: Tree, off: nat, bytes: seq<byte>, n: nat,
      c: nat)
    reads fs, fs.table, fs.disk, file
  {
    && file.start in t.chains && file.start in t0.chains && Writable(fs, file, t, c)
    && FileMoved(fs.geo, v0, t0, fs.State(), t, file.start)
    && (t.chains[file.start] == t0.chains[file.start] || |t.chains[file.start]| <= c)
    && file.SectorOk(SectorsOf(fs.geo, fs.State().data, t.chains[file.start]))
    && Progress(SectorsOf(fs.geo, v0.data, t0.chains[file.start]),
            SectorsOf(fs.geo, fs.State().data, t.chains[file.start]), off, bytes, n)
  }

  /** Where the next byte goes is in the file or right behind its last sector. */
  lemma NextPlace(secs0: seq<Sector>, secs: seq<Sector>, off: nat, bytes: seq<byte>, n: nat, sector: nat, offset: nat)
    requires Progress(secs0, secs, off, bytes, n) && SECTOR_SIZE * sector + offset == off + n && offset < SECTOR_SIZE
    ensures sector <= |secs| && (sector == |secs| ==> offset == 0)
  {
    hide ByteOf;
  }

  lemma WithinSectors(g: Geometry, end: nat, sector: nat, from: nat, m: nat)
    requires g.sectorsPerCluster >= 1 && m >= 1 && SECTOR_SIZE * sector + from < end
    requires (m > 1 ==> SECTOR_SIZE * (sector + m) <= end)
    ensures sector + m <= Plan(g, end) * g.sectorsPerCluster
  {
    PlanHolds(g, end);
    hide Plan;
  }

  /** The branch for whole sectors. */
  method WriteWhole(fs: FatFs, file: OpenFile, bytes: seq<byte>, n: nat, sector: u32, ghost off: nat, ghost v0: Volume,
      ghost t0: Tree, ghost t: Tree, ghost c: nat)
    returns (done: nat, ghost t': Tree)
    requires Underway(fs, file, v0, t0, t, off, bytes, n, c) && n + SECTOR_SIZE <= |bytes|
    requires off + n == SECTOR_SIZE * sector && sector < UNSET
    requires fs.geo.sectorsPerCluster >= 1 && sector + (|bytes| - n) / SECTOR_SIZE <= c * fs.geo.sectorsPerCluster
    modifies file`lastIndex, file`lastCluster, file`dataAddress, fs`data, fs.table, fs.disk
    ensures n + SECTOR_SIZE * done <= |bytes| && Underway(fs, file, v0, t0, t', off, bytes, n + SECTOR_SIZE * done, c)
    ensures file.start in t.chains && file.start in t'.chains
    ensures WholeTurn(fs.geo, old(fs.State()).T, t.chains[file.start], fs.State().T, t'.chains[file.start], sector,
            (|bytes| - n) / SECTOR_SIZE, done)
  {
    hide Writable, FileMoved, Progress, SectorsOf, WroteAt, Enough, FatFs.State, Cut, Free, Plan;
    ghost var g, v := fs.geo, fs.State();
    SectorsLength(g, v.data, t.chains[file.start]);
    EnoughBehind(g, v.T, t.chains[file.start], (|bytes| - n) / SECTOR_SIZE);
    ghost var secs0, secs := SectorsOf(g, v0.data, t0.chains[file.start]), SectorsOf(g, v.data, t.chains[file.start]);
    NextPlace(secs0, secs, off, bytes, n, sector, 0);
    if file.dataAddress != UNSET {
      file.dataAddress := UNSET;
    }
    var m := (|bytes| - n) / SECTOR_SIZE;
    done, t' := WriteSectors(fs, file, sector, Cut(bytes, n, m), t, c, v);
    CutPrefix(bytes, n, m, done);
    ProgressWhole(secs0, secs, SectorsOf(g, fs.State().data, t'.chains[file.start]), off, bytes, n, sector,
      Cut(bytes, n, done));
    MovedTwice(g, v0, t0, v, t, fs.State(), t', file.start);
  }

  /**
   * Of m whole sectors from sector on none was written only at the end of a chain that could not
   * grow enough for all.
   */
  ghost predicate WholeTurn(g: Geometry, T: seq<u32>, ch: seq<u32>, U: seq<u32>, ch': seq<u32>, sector: nat, m: nat,
      done: nat) {
    && g.sectorsPerCluster >= 1
    && (done == 0 ==>
          sector == |ch| * g.sectorsPerCluster &&
          !Enough(g, T, ch, Plan(g, SECTOR_SIZE * (sector + m))) && Free(g, U) == [])
    && (done >= 1 ==> ch' == ch || Enough(g, T, ch, Plan(g, SECTOR_SIZE * (sector + m))))
  }

  /** Part of a sector was not written only at the end of a chain that could not grow at all. */
  ghost predicate PartTurn(g: Geometry, T: seq<u32>, ch: seq<u32>, ch': seq<u32>, sector: nat, ok: bool) {
    && (!ok ==> sector == |ch| * g.sectorsPerCluster && Free(g, T) == [])
    && (ok ==> ch' == ch || sector == |ch| * g.sectorsPerCluster)
  }

  lemma CutPrefix(bytes: seq<byte>, p: nat, n: nat, m: nat)
    requires p + SECTOR_SIZE * n <= |bytes| && m <= n
    ensures p + SECTOR_SIZE * m <= |bytes| && Cut(bytes, p, n)[..m] == Cut(bytes, p, m)
  {
  }

  /** The sector of the file, or zeros behind the end of its chain. */
  method FetchSector(fs: FatFs, file: OpenFile, sector: u32, ghost ch: seq<u32>, ghost secs: seq<Sector>)
    returns (got: Sector)
    requires ChainOf(fs, file.start, ch) && file.LookupOk(ch) && secs == SectorsOf(fs.geo, fs.State().data, ch)
    requires sector <= |secs| && sector < UNSET
    modifies file`lastIndex, file`lastCluster, fs.table, fs.disk
    ensures ChainOf(fs, file.start, ch) && fs.State() == old(fs.State()) && file.LookupOk(ch)
    ensures sector < |secs| ==> got == secs[sector]
  {
    hide ChainOf, OpenFile.LookupOk, Addrs, Pick, FatFs.State, Blank;
    var n, data := ReadSectors(fs, file, sector, 1, ch, secs);
    got := Blank();
    if n != 0 {
      got := data[0];
    }
  }

  lemma PartDone(secs0: seq<Sector>, secs: seq<Sector>, secs': seq<Sector>, off: nat, bytes: seq<byte>, n: nat, x: nat,
      from: nat, c: nat, base: Sector)
    requires Progress(secs0, secs, off, bytes, n) && off + n == SECTOR_SIZE * x + from && from + c <= SECTOR_SIZE
    requires n + c <= |bytes|
    requires x < |secs| && c < SECTOR_SIZE ==> base == secs[x]
    requires WroteAt(secs, secs', x, [Patched(base, from, bytes[n..n + c])])
    ensures Progress(secs0, secs', off, bytes, n + c)
    ensures x < |secs'| && secs'[x] == Patched(base, from, bytes[n..n + c])
  {
    hide Progress, Patched;
    ProgressPart(secs0, secs, secs', off, bytes, n, x, from, c, base);
  }

  /** Make the sector buffer hold the sector, unless all of it will be overwritten. */
  method LoadBuffer(fs: FatFs, file: OpenFile, sector: u32, count: nat, ghost t: Tree, ghost c: nat,
      ghost secs: seq<Sector>)
    requires file.start in t.chains && Writable(fs, file, t, c) && file.SectorOk(secs)
    requires secs == SectorsOf(fs.geo, fs.State().data, t.chains[file.start]) && sector <= |secs| && sector < UNSET
    modifies file`lastIndex, file`lastCluster, file`dataSector, file`dataAddress, fs.table, fs.disk
    ensures Writable(fs, file, t, c) && fs.State() == old(fs.State()) && file.dataAddress == sector
    ensures sector < |secs| && count < SECTOR_SIZE ==> file.dataSector == secs[sector]
  {
    hide FatFs.Valid, Ready, ChainOf, Supply, OpenFile.LookupOk, SectorsOf, FatFs.State, Inv, CurAt;
    FileOfParts(fs, t, file.start);
    if file.dataAddress != sector {
      if count != SECTOR_SIZE {
        var got := FetchSector(fs, file, sector, t.chains[file.start], secs);
        file.dataSector := got;
        ValidOf(fs, file.start, t.chains[file.start]);
        FileOfKept(fs, t, file.start);
      }
      file.dataAddress := sector;
    }
  }

  /** The branch for part of a sector, by way of the file's sector buffer. */
  method WritePart(fs: FatFs, file: OpenFile, bytes: seq<byte>, n: nat, sector: u32, offset: nat, count: nat,
      ghost off: nat, ghost v0: Volume, ghost t0: Tree, ghost t: Tree, ghost c: nat)
    returns (ok: bool, ghost t': Tree)
    requires Underway(fs, file, v0, t0, t, off, bytes, n, c) && 1 <= count && n + count <= |bytes|
    requires offset + count <= SECTOR_SIZE
    requires off + n == SECTOR_SIZE * sector + offset && sector < UNSET && offset < SECTOR_SIZE
    requires fs.geo.sectorsPerCluster >= 1 && sector + 1 <= c * fs.geo.sectorsPerCluster
    modifies file`lastIndex, file`lastCluster, file`dataSector, file`dataAddress, fs`data, fs.table, fs.disk
    ensures file.start in t.chains && file.start in t'.chains
    ensures ok ==> Underway(fs, file, v0, t0, t', off, bytes, n + count, c)
    ensures PartTurn(fs.geo, old(fs.State()).T, t.chains[file.start], t'.chains[file.start], sector, ok)
  {
    hide Writable, FileMoved, Progress, SectorsOf, WroteAt, Enough, FatFs.State, Patched, Free;
    ghost var g, v := fs.geo, fs.State();
    SectorsLength(g, v.data, t.chains[file.start]);
    Arith.CellDiv(1, 0, g.sectorsPerCluster);
    ghost var secs0, secs := SectorsOf(g, v0.data, t0.chains[file.start]), SectorsOf(g, v.data, t.chains[file.start]);
    NextPlace(secs0, secs, off, bytes, n, sector, offset);
    LoadBuffer(fs, file, sector, count, t, c, secs);
    ghost var base := file.dataSector;
    file.dataSector := Patched(file.dataSector, offset, bytes[n..n + count]);
    var done;
    done, t' := WriteSectors(fs, file, file.dataAddress, [file.dataSector], t, c, v);
    ok := done == 1;
    if ok {
      assert [file.dataSector][..done] == [file.dataSector];
      PartDone(secs0, secs, SectorsOf(g, fs.State().data, t'.chains[file.start]), off, bytes, n, sector, offset, count,
        base);
      MovedTwice(g, v0, t0, v, t, fs.State(), t', file.start);
    }
  }

  /** The pair of an open file in its directory. */
  ghost predicate EntryOf(file: OpenFile, t: Tree, i: nat, len: u32) {
    && file.parent in t.list && i < |t.list[file.parent]|
    && var r := t.list[file.parent][i].record;
      StartCluster(r) == file.start && r[..11] == file.short && FileSize(r) == len
  }

  /** An open file: its chain, buffers and length agree with the volume, and pair i of its directory is its own. */
  ghost predicate OpenIn(fs: FatFs, file: OpenFile, t: Tree, i: nat)
    reads fs, fs.table, fs.disk, file
  {
    && FileOf(fs, t, file.start) && file.start in t.chains && EntryOf(file, t, i, file.len)
    && file.LookupOk(t.chains[file.start]) && file.SectorOk(SectorsOf(fs.geo, fs.State().data, t.chains[file.start]))
    && file.len <= SECTOR_SIZE * |SectorsOf(fs.geo, fs.State().data, t.chains[file.start])|
  }

  ghost function Content(g: Geometry, v: Volume, t: Tree, s: u32, len: nat): seq<byte>
    requires s in t.chains
  {
    Bytes(SectorsOf(g, v.data, t.chains[s]), 0, len)
  }

  /** Pair i of directory p has another size, and nothing else of the names changed. */
  ghost predicate SizeChanged(t: Tree, t': Tree, p: u32, i: nat, size: u32) {
    && p in t.list && i < |t.list[p]|
    && t' == t.(list := t.list[p := t.list[p][i := Pair(t.list[p][i].name, WithSize(t.list[p][i].record, size))]])
  }

  /** Record the new length in the node and in the directory. */
  method Extend(fs: FatFs, file: OpenFile, end: u32, ghost t: Tree, ghost i: nat) returns (ghost t': Tree)
    requires OpenIn(fs, file, t, i) && end <= SECTOR_SIZE * |SectorsOf(fs.geo, fs.State().data, t.chains[file.start])|
    modifies file`len, fs, fs.table, fs.disk
    ensures OpenIn(fs, file, t', i) && SizeChanged(t, t', file.parent, i, end) && file.len == end
    ensures OthersKept(fs.geo, old(fs.State()), t, fs.State(), t', file.parent) && fs.State().T == old(fs.State()).T
    ensures Reaches(fs.geo, old(fs.State()), t, fs.State(), t')
  {
    hide FatFs.Valid, FatFs.CurrentIn, Inv, CurAt, OpenFile.LookupOk, OpenFile.SectorOk, SectorsOf, DirSlots, DirChain;
    hide Rewritten, FirstShort, OthersKept;
    hide StartCluster, FileSize, WithSize, SizeChanged, Reaches;
    ghost var g, v, p := fs.geo, fs.State(), file.parent;
    DirectoryOf(g, v, t, p);
    file.len := end;
    ghost var k, a := 0, fs.curAddress;
    var ok;
    ok, k := UpdateFileLength(fs, file.parent, file.short, file.len, t.chains[p], DirSlots(g, v.data, t.chains[p]));
    SameEntry(g, v, t, p, i, file.short, k);
    SectorsHold(g, v.data, t.chains[file.start]);
    t' := t.(list := t.list[p := t.list[p][i := Pair(t.list[p][i].name, WithSize(t.list[p][i].record, end))]]);
    SizeMoved(g, v, t, fs.State(), t', p, i, k, end);
    CurOn(fs, t', p, t'.chains[p]);
    ParentApart(g, v, t, p, file.start);
    SameFile(g, v, t, fs.State(), t', p, file.start);
    SizeEntry(file, t, t', i, end);
    PurgeFat(fs, t');
  }

  lemma SectorsHold(g: Geometry, data: seq<Sector>, ch: seq<u32>)
    ensures SECTOR_SIZE * |SectorsOf(g, data, ch)| == Capacity(g, |ch|)
  {
  }

  lemma SizeMoved(g: Geometry, v: Volume, t: Tree, w: Volume, t': Tree, p: u32, i: nat, k: nat, size: u32)
    requires Inv(g, v, t) && p in t.list && p in t.chains && i < |t.list[p]|
    requires var slots := DirSlots(g, v.data, t.chains[p]);
      && k < |slots| && |Pairs(slots, k)| == i && IsLive(slots[k]) && slots[k] == t.list[p][i].record
      && Rewritten(g, v, w, t.chains[p], k, WithSize(slots[k], size))
      && (StartCluster(slots[k]) in t.chains ==> size <= Capacity(g, |t.chains[StartCluster(slots[k])]|))
    requires t' == t.(list := t.list[p := t.list[p][i := Pair(t.list[p][i].name, WithSize(t.list[p][i].record, size))]])
    ensures Inv(g, w, t') && OthersKept(g, v, t, w, t', p) && SizeChanged(t, t', p, i, size) && w.T == v.T
    ensures Reaches(g, v, t, w, t')
  {
    hide Inv, DirSlots, Pairs, Rewritten, IsLive, WithSize, OthersKept, StartCluster, Capacity, Reaches;
    RewrittenTable(g, v, w, t.chains[p], k, WithSize(DirSlots(g, v.data, t.chains[p])[k], size));
    assert Resized(g, v, t, w, t', p, k, size);
    ResizedKeeps(g, v, t, w, t', p, k, size);
    StepFrame(g, v, t, w, t', Resize(p, k, size));
    ReachesStep(g, v, t, w, t', Resize(p, k, size));
  }

  lemma ParentApart(g: Geometry, v: Volume, t: Tree, p: u32, s: u32)
    requires Inv(g, v, t) && p in t.list && s !in t.list
    ensures p != s
  {
    hide Inv;
  }

  lemma SameFile(g: Geometry, v: Volume, t: Tree, w: Volume, t': Tree, p: u32, s: u32)
    requires OthersKept(g, v, t, w, t', p) && s in t.chains && t'.chains == t.chains && s != p
    ensures SectorsOf(g, w.data, t'.chains[s]) == SectorsOf(g, v.data, t.chains[s])
  {
    hide Pick, Addrs;
  }

  lemma SizeEntry(file: OpenFile, t: Tree, t': Tree, i: nat, size: u32)
    requires file.parent in t.list && i < |t.list[file.parent]| && SizeChanged(t, t', file.parent, i, size)
    requires StartCluster(t.list[file.parent][i].record) == file.start
    requires t.list[file.parent][i].record[..11] == file.short
    ensures EntryOf(file, t', i, size)
  {
    SizeKeepsNames(t.list[file.parent][i].record, size);
    hide StartCluster, FileSize, WithSize;
  }

  /** How a write of the bytes up to end ends, given the chain and the table it starts from. */
  datatype Outcome = Done | Short | Panic

  /** What the chain can still get decides: all that is needed, enough for the whole sectors only, or not even that. */
  ghost function OutcomeOf(g: Geometry, T: seq<u32>, ch: seq<u32>, end: nat): Outcome
    requires g.sectorsPerCluster >= 1
  {
    if Enough(g, T, ch, Plan(g, end)) then Done else if Enough(g, T, ch, Plan(g, Whole(end))) then Panic else Short
  }

  lemma EnoughIsDone(g: Geometry, T: seq<u32>, ch: seq<u32>, end: nat)
    requires g.sectorsPerCluster >= 1
    ensures OutcomeOf(g, T, ch, end) == Done <==> Enough(g, T, ch, Plan(g, end))
  {
    hide Enough, Plan;
  }

  /** In the loop: the outcome is as foretold, and the chain has grown only if the whole sectors have their clusters. */
  ghost predicate OnCourse(g: Geometry, T: seq<u32>, ch: seq<u32>, U: seq<u32>, ch': seq<u32>, at: nat, end: nat,
      stopped: bool, panicked: bool) {
    && g.sectorsPerCluster >= 1
    && (panicked ==> stopped && OutcomeOf(g, T, ch, end) == Panic)
    && (stopped && !panicked ==> OutcomeOf(g, T, ch, end) == Short && Exhausted(g, T, ch, ch', at))
    && (!stopped ==> Drew(g, T, ch, U, ch') && (ch' == ch || Enough(g, T, ch, Plan(g, Whole(end)))))
  }

  /** The bytes end where the old chain ended, and the chain has taken all the clusters that were free. */
  ghost predicate Exhausted(g: Geometry, T: seq<u32>, ch: seq<u32>, ch': seq<u32>, at: nat) {
    at == Capacity(g, |ch|) && ch' == ch + Free(g, T)
  }

  /** After a turn for whole sectors. */
  lemma AfterWhole(g: Geometry, T: seq<u32>, ch: seq<u32>, U: seq<u32>, ch1: seq<u32>, V: seq<u32>, ch2: seq<u32>,
      sector: nat, m: nat, done: nat, end: nat)
    requires OnCourse(g, T, ch, U, ch1, SECTOR_SIZE * sector, end, false, false)
    requires WholeTurn(g, U, ch1, V, ch2, sector, m, done) && Drew(g, T, ch, V, ch2)
    requires SECTOR_SIZE * (sector + m) == Whole(end)
    ensures OnCourse(g, T, ch, V, ch2, SECTOR_SIZE * (sector + done), end, done == 0, false)
  {
    hide Free, Plan, Enough, Whole;
    EnoughStays(g, T, ch, U, ch1, Plan(g, Whole(end)));
    EnoughLess(g, T, ch, end);
    if done == 0 {
      DrewAll(g, T, ch, V, ch2);
    }
  }

  lemma DrewAll(g: Geometry, T: seq<u32>, ch: seq<u32>, U: seq<u32>, ch': seq<u32>)
    requires Drew(g, T, ch, U, ch') && Free(g, U) == []
    ensures ch' == ch + Free(g, T)
  {
    hide Free;
    assert Free(g, T)[..|Free(g, T)|] == Free(g, T);
  }

  lemma EnoughLess(g: Geometry, T: seq<u32>, ch: seq<u32>, end: nat)
    requires g.sectorsPerCluster >= 1
    ensures Enough(g, T, ch, Plan(g, end)) ==> Enough(g, T, ch, Plan(g, Whole(end)))
  {
    hide Free, Plan;
    PlanLess(g, Whole(end), end);
  }

  /** After a turn for part of a sector; less than a sector is left if the turn starts a new one. */
  lemma AfterPart(g: Geometry, T: seq<u32>, ch: seq<u32>, U: seq<u32>, ch1: seq<u32>, V: seq<u32>, ch2: seq<u32>,
      sector: nat, ok: bool, at: nat, next: nat, end: nat)
    requires OnCourse(g, T, ch, U, ch1, at, end, false, false) && PartTurn(g, U, ch1, ch2, sector, ok)
    requires (ok ==> Drew(g, T, ch, V, ch2))
    requires sector == |ch1| * g.sectorsPerCluster ==> Whole(end) == SECTOR_SIZE * sector < end
    ensures OnCourse(g, T, ch, V, ch2, next, end, !ok, !ok)
  {
    hide Free, Plan, Enough, Whole;
    EnoughStays(g, T, ch, U, ch1, Plan(g, end));
    EnoughStays(g, T, ch, U, ch1, Plan(g, Whole(end)));
    if sector == |ch1| * g.sectorsPerCluster {
      AtTheEnd(g, U, ch1, sector, end);
    }
  }

  /** The tail of the bytes is due behind the end of the chain. */
  lemma AtTheEnd(g: Geometry, T: seq<u32>, ch: seq<u32>, sector: nat, end: nat)
    requires g.sectorsPerCluster >= 1 && sector == |ch| * g.sectorsPerCluster
    requires Whole(end) == SECTOR_SIZE * sector < end
    ensures Enough(g, T, ch, Plan(g, Whole(end)))
    ensures Free(g, T) == [] ==> !Enough(g, T, ch, Plan(g, end))
  {
    hide Free;
    PlanBehind(g, |ch|, 0);
    Arith.CellDiv(0, g.sectorsPerCluster - 1, g.sectorsPerCluster);
    PlanHolds(g, end);
    hide Plan;
    Arith.MulOrder(Plan(g, end), |ch|, g.sectorsPerCluster);
  }

  /** All bytes are in place: the chain could get what they need. */
  lemma AllThere(g: Geometry, data: seq<Sector>, T: seq<u32>, ch: seq<u32>, U: seq<u32>, ch': seq<u32>, end: nat)
    requires g.sectorsPerCluster >= 1 && Drew(g, T, ch, U, ch') && end <= SECTOR_SIZE * |SectorsOf(g, data, ch')|
    ensures OutcomeOf(g, T, ch, end) == Done
  {
    hide Free;
    SectorsLength(g, data, ch');
    PlanHolds(g, end);
    hide Plan, SectorsOf;
  }

  /** The branch for whole sectors keeps to the course. */
  method WholeStep(fs: FatFs, file: OpenFile, bytes: seq<byte>, n: nat, sector: u32, ghost off: nat, ghost v0: Volume,
      ghost t0: Tree, ghost t: Tree, ghost c: nat)
    returns (done: nat, ghost t': Tree)
    requires Underway(fs, file, v0, t0, t, off, bytes, n, c) && n + SECTOR_SIZE <= |bytes|
    requires off + n == SECTOR_SIZE * sector && off + |bytes| < 0x1_0000_0000 && file.start in t.chains
    requires file.start in t0.chains && fs.geo.sectorsPerCluster >= 1 && c == Plan(fs.geo, off + |bytes|)
    requires OnCourse(fs.geo, v0.T, t0.chains[file.start], fs.State().T, t.chains[file.start], off + n, off + |bytes|,
        false, false)
    modifies file`lastIndex, file`lastCluster, file`dataAddress, fs`data, fs.table, fs.disk
    ensures n + SECTOR_SIZE * done <= |bytes| && Underway(fs, file, v0, t0, t', off, bytes, n + SECTOR_SIZE * done, c)
    ensures file.start in t'.chains && (done == 0 ==> n < |bytes|)
    ensures OnCourse(fs.geo, v0.T, t0.chains[file.start], fs.State().T, t'.chains[file.start],
              off + n + SECTOR_SIZE * done, off + |bytes|, done == 0, false)
  {
    hide Underway, Plan, Whole, Enough, FatFs.State, OnCourse, OutcomeOf, Drew, WholeTurn, Free;
    ghost var g, s, end, u, m := fs.geo, file.start, off + |bytes|, fs.State(), (|bytes| - n) / SECTOR_SIZE;
    WholeLeft(sector, |bytes| - n, end);
    WithinSectors(g, end, sector, 0, m);
    done, t' := WriteWhole(fs, file, bytes, n, sector, off, v0, t0, t, c);
    DrewSoFar(fs, file, v0, t0, t', off, bytes, n + SECTOR_SIZE * done, c);
    AfterWhole(g, v0.T, t0.chains[s], u.T, t.chains[s], fs.State().T, t'.chains[s], sector, m, done, end);
  }

  /** And so does the branch for part of a sector, which panics if it fails. */
  method PartStep(fs: FatFs, file: OpenFile, bytes: seq<byte>, n: nat, sector: u32, offset: nat, count: nat,
      ghost off: nat, ghost v0: Volume, ghost t0: Tree, ghost t: Tree, ghost c: nat)
    returns (ok: bool, ghost t': Tree)
    requires Underway(fs, file, v0, t0, t, off, bytes, n, c) && n < |bytes| && offset < SECTOR_SIZE
    requires count == if SECTOR_SIZE - offset > |bytes| - n then |bytes| - n else SECTOR_SIZE - offset
    requires off + n == SECTOR_SIZE * sector + offset && (offset == 0 ==> |bytes| - n < SECTOR_SIZE)
    requires off + |bytes| < 0x1_0000_0000 && file.start in t.chains
    requires file.start in t0.chains && fs.geo.sectorsPerCluster >= 1 && c == Plan(fs.geo, off + |bytes|)
    requires OnCourse(fs.geo, v0.T, t0.chains[file.start], fs.State().T, t.chains[file.start], off + n, off + |bytes|,
        false, false)
    modifies file`lastIndex, file`lastCluster, file`dataSector, file`dataAddress, fs`data, fs.table, fs.disk
    ensures file.start in t'.chains && (ok ==> Underway(fs, file, v0, t0, t', off, bytes, n + count, c))
    ensures OnCourse(fs.geo, v0.T, t0.chains[file.start], fs.State().T, t'.chains[file.start],
              if ok then off + n + count else off + n, off + |bytes|, !ok, !ok)
  {
    hide Underway, Plan, Whole, Enough, FatFs.State, OnCourse, OutcomeOf, Drew, PartTurn, Free;
    ghost var g, s, end, u := fs.geo, file.start, off + |bytes|, fs.State();
    WithinSectors(g, end, sector, offset, 1);
    NewSector(fs, file, v0, t0, t, off, bytes, n, c, sector, offset);
    ok, t' := WritePart(fs, file, bytes, n, sector, offset, count, off, v0, t0, t, c);
    if ok {
      DrewSoFar(fs, file, v0, t0, t', off, bytes, n + count, c);
    }
    AfterPart(g, v0.T, t0.chains[s], u.T, t.chains[s], fs.State().T, t'.chains[s], sector, ok, off + n,
      if ok then off + n + count else off + n, end);
  }

  /** The loop of _fs_write_file: it does all, stops short or panics, as OutcomeOf tells. */
  method WriteLoop(fs: FatFs, file: OpenFile, bytes: seq<byte>, off: u32, ghost v0: Volume, ghost t0: Tree,
      ghost c: nat)
    returns (written: nat, panicked: bool, ghost t: Tree)
    requires Underway(fs, file, v0, t0, t0, off, bytes, 0, c) && file.start in t0.chains && fs.State() == v0
    requires off + |bytes| < 0x1_0000_0000 && fs.geo.sectorsPerCluster >= 1 && c == Plan(fs.geo, off + |bytes|)
    modifies file`lastIndex, file`lastCluster, file`dataSector, file`dataAddress, fs`data, fs.table, fs.disk
    ensures written <= |bytes| && (!panicked ==> Underway(fs, file, v0, t0, t, off, bytes, written, c))
    ensures Ended(fs.geo, v0.T, t0.chains[file.start], t, file.start, off, |bytes|, written, panicked)
  {
    hide Underway, Plan, Whole, Enough, FatFs.State, OnCourse, OutcomeOf, Exhausted, Drew, Ended;
    hide Free;
    t, written, panicked := t0, 0, false;
    ghost var g, s, end := fs.geo, file.start, off + |bytes|;
    ghost var ch := t0.chains[s];
    StartCourse(g, v0.T, ch, off, end);
    var sector, offset := off / SECTOR_SIZE, off % SECTOR_SIZE;
    var stopped := false;
    while written < |bytes| && !stopped
      invariant written <= |bytes| && 0 <= sector && 0 <= offset < SECTOR_SIZE && s in t.chains
      invariant !panicked ==> Underway(fs, file, v0, t0, t, off, bytes, written, c)
      invariant OnCourse(g, v0.T, ch, fs.State().T, t.chains[s], off + written, end, stopped, panicked)
      invariant panicked ==> stopped
      invariant stopped ==> written < |bytes|
      invariant written < |bytes| ==> SECTOR_SIZE * sector + offset == off + written
      decreases |bytes| - written, !stopped
    {
      if offset == 0 && |bytes| - written >= SECTOR_SIZE {
        var sectorsWritten;
        sectorsWritten, t := WholeStep(fs, file, bytes, written, sector, off, v0, t0, t, c);
        written := written + SECTOR_SIZE * sectorsWritten;
        sector, offset := sector + sectorsWritten, 0;
        stopped := sectorsWritten == 0;
      } else {
        var copyCount := SECTOR_SIZE - offset;
        if copyCount > |bytes| - written {
          copyCount := |bytes| - written;
        }
        var ok;
        ok, t := PartStep(fs, file, bytes, written, sector, offset, copyCount, off, v0, t0, t, c);
        if !ok {
          panicked, stopped := true, true;
        } else {
          written := written + copyCount;
          sector, offset := sector + 1, 0;
        }
      }
    }
    if !panicked {
      InPlace(fs, file, v0, t0, t, off, bytes, written, c);
    }
    EndCourse(fs.geo, v0.T, ch, fs.State().T, t, s, off, |bytes|, written, stopped, panicked);
  }

  /** How the loop ended, and what came of it if it stopped short. */
  ghost predicate Ended(g: Geometry, T: seq<u32>, ch: seq<u32>, t: Tree, s: u32, off: nat, count: nat, written: nat,
      panicked: bool) {
    && g.sectorsPerCluster >= 1 && s in t.chains
    && (panicked <==> OutcomeOf(g, T, ch, off + count) == Panic)
    && (!panicked ==> (written == count <==> OutcomeOf(g, T, ch, off + count) == Done))
    && (!panicked && written < count ==> Exhausted(g, T, ch, t.chains[s], off + written))
  }

  lemma WholeLeft(sector: nat, left: nat, end: nat)
    requires SECTOR_SIZE * sector + left == end
    ensures SECTOR_SIZE * (sector + left / SECTOR_SIZE) == Whole(end)
  {
  }

  lemma StartCourse(g: Geometry, T: seq<u32>, ch: seq<u32>, at: nat, end: nat)
    requires g.sectorsPerCluster >= 1
    ensures OnCourse(g, T, ch, T, ch, at, end, false, false)
  {
    hide Drew, OutcomeOf;
    DrewNothing(g, T, ch);
  }

  lemma DrewSoFar(fs: FatFs, file: OpenFile, v: Volume, t: Tree, t1: Tree, off: nat, bytes: seq<byte>, n: nat, c: nat)
    requires Underway(fs, file, v, t, t1, off, bytes, n, c)
    ensures file.start in t.chains && file.start in t1.chains
    ensures Drew(fs.geo, v.T, t.chains[file.start], fs.State().T, t1.chains[file.start])
  {
    hide Writable, OthersKept, Progress, SectorsOf, Reaches, Drew;
  }

  lemma InPlace(fs: FatFs, file: OpenFile, v: Volume, t: Tree, t1: Tree, off: nat, bytes: seq<byte>, n: nat, c: nat)
    requires Underway(fs, file, v, t, t1, off, bytes, n, c) && fs.geo.sectorsPerCluster >= 1
    ensures n == |bytes| ==> OutcomeOf(fs.geo, v.T, t.chains[file.start], off + |bytes|) == Done
  {
    hide Writable, OthersKept, SectorsOf, Reaches, Drew, OutcomeOf, ByteOf;
    if n == |bytes| {
      AllThere(fs.geo, fs.State().data, v.T, t.chains[file.start], fs.State().T, t1.chains[file.start], off + |bytes|);
    }
  }

  /** A turn that starts behind the end of the chain starts a sector. */
  lemma NewSector(fs: FatFs, file: OpenFile, v: Volume, t: Tree, t1: Tree, off: nat, bytes: seq<byte>, n: nat, c: nat,
      sector: nat, offset: nat)
    requires Underway(fs, file, v, t, t1, off, bytes, n, c) && SECTOR_SIZE * sector + offset == off + n
    requires offset < SECTOR_SIZE
    requires n < |bytes| && (offset == 0 ==> |bytes| - n < SECTOR_SIZE)
    ensures sector == |t1.chains[file.start]| * fs.geo.sectorsPerCluster ==>
              Whole(off + |bytes|) == SECTOR_SIZE * sector < off + |bytes|
  {
    hide Writable, FileMoved, Progress, SectorsOf;
    NextPlace(SectorsOf(fs.geo, v.data, t.chains[file.start]),
      SectorsOf(fs.geo, fs.State().data, t1.chains[file.start]), off, bytes, n, sector, offset);
    SectorsLength(fs.geo, fs.State().data, t1.chains[file.start]);
  }

  lemma EndCourse(g: Geometry, T: seq<u32>, ch: seq<u32>, U: seq<u32>, t: Tree, s: u32, off: nat, count: nat,
      written: nat, stopped: bool, panicked: bool)
    requires s in t.chains && OnCourse(g, T, ch, U, t.chains[s], off + written, off + count, stopped, panicked)
    requires written <= count
    requires (panicked ==> stopped) && (stopped ==> written < count) && (written < count ==> stopped)
    requires !panicked && written == count ==> OutcomeOf(g, T, ch, off + count) == Done
    ensures Ended(g, T, ch, t, s, off, count, written, panicked)
  {
    hide OutcomeOf, Exhausted, Drew;
  }

  /** What a finished write means. */
  ghost predicate Wrote(g: Geometry, v: Volume, t: Tree, w: Volume, t': Tree, s: u32, p: u32, i: nat, off: nat,
      bytes: seq<byte>, len: u32, len': u32) {
    && s in t.chains && s in t'.chains && off <= len && RefAt(t.list, p, i, s)
    && len' == (if off + |bytes| > len then off + |bytes| else len)
    && Content(g, w, t', s, len') == Spliced(Content(g, v, t, s, len), off, bytes)
    && t'.chains.Keys == t.chains.Keys && t.chains[s] <= t'.chains[s] && Reaches(g, v, t, w, t')
    && Drew(g, v.T, t.chains[s], w.T, t'.chains[s])
    && (if len' == len then t'.list == t.list && t'.loose == t.loose
           else SizeChanged(t.(chains := t'.chains), t', p, i, len'))
    && (forall u :: u in t.chains && u != s ==> t'.chains[u] == t.chains[u])
    && forall u :: u in t.chains && u != s && (u != p || len' == len) ==> SameSectors(g, v, w, t.chains[u])
  }

  /** c with the bytes laid over it at off, longer if they reach past its end. */
  function Spliced(c: seq<byte>, off: nat, bytes: seq<byte>): seq<byte>
    requires off <= |c|
  {
    c[..off] + bytes + if off + |bytes| < |c| then c[off + |bytes|..] else []
  }

  lemma UnderwayStart(fs: FatFs, file: OpenFile, t: Tree, i: nat, off: nat, bytes: seq<byte>, c: nat)
    requires OpenIn(fs, file, t, i) && off <= file.len && Supply(fs.geo, fs.State().T, t.chains[file.start], c)
    ensures Underway(fs, file, fs.State(), t, t, off, bytes, 0, c) && fs.geo.sectorsPerCluster >= 1
  {
    hide FatFs.Valid, Ready, SectorsOf, OpenFile.LookupOk, OpenFile.SectorOk, Supply, FileMoved, Progress, FatFs.State;
    hide Inv;
    FileOfParts(fs, t, file.start);
    StillMoved(fs.geo, fs.State(), t, file.start);
    ProgressStart(SectorsOf(fs.geo, fs.State().data, t.chains[file.start]), off, bytes);
  }

  /** After the loop: the file is open as before, with the bytes in place. */
  lemma UnderwayDone(fs: FatFs, file: OpenFile, v: Volume, t: Tree, t1: Tree, i: nat, off: nat, bytes: seq<byte>,
      n: nat, c: nat, len: u32)
    requires Underway(fs, file, v, t, t1, off, bytes, n, c) && EntryOf(file, t, i, len) && file.len == len && off <= len
    requires len <= SECTOR_SIZE * |SectorsOf(fs.geo, v.data, t.chains[file.start])|
    ensures OpenIn(fs, file, t1, i)
    ensures off + n <= SECTOR_SIZE * |SectorsOf(fs.geo, fs.State().data, t1.chains[file.start])|
    ensures Content(fs.geo, fs.State(), t1, file.start, if off + n > len then off + n else len)
         == Spliced(Content(fs.geo, v, t, file.start, len), off, bytes[..n])
  {
    hide FatFs.Valid, Ready, SectorsOf, OpenFile.LookupOk, OpenFile.SectorOk, Supply, OthersKept, FatFs.State, ByteOf;
    hide Reaches, Drew;
    ProgressDone(SectorsOf(fs.geo, v.data, t.chains[file.start]),
      SectorsOf(fs.geo, fs.State().data, t1.chains[file.start]), off, bytes, n, len);
  }

  /** The chain is as long as the bytes need, or as long as it was. */
  lemma PlanReached(g: Geometry, data: seq<Sector>, ch: seq<u32>, ch': seq<u32>, end: nat)
    requires g.sectorsPerCluster >= 1 && ch <= ch' && (ch' == ch || |ch'| <= Plan(g, end))
    requires end <= SECTOR_SIZE * |SectorsOf(g, data, ch')|
    ensures |ch'| == if Plan(g, end) > |ch| then Plan(g, end) else |ch|
  {
    PlanHolds(g, end);
    hide Plan;
    SectorsLength(g, data, ch');
  }

  lemma UnderwayChain(fs: FatFs, file: OpenFile, v: Volume, t: Tree, t1: Tree, off: nat, bytes: seq<byte>, n: nat,
      c: nat)
    requires Underway(fs, file, v, t, t1, off, bytes, n, c)
    ensures FileMoved(fs.geo, v, t, fs.State(), t1, file.start) && file.start in t.chains && file.start in t1.chains
    ensures t1.chains[file.start] == t.chains[file.start] || |t1.chains[file.start]| <= c
    ensures t.chains[file.start] <= t1.chains[file.start]
  {
    hide Writable, OthersKept, Progress, SectorsOf, Reaches, Drew;
  }

  lemma WroteSame(g: Geometry, v: Volume, t: Tree, w: Volume, t1: Tree, s: u32, p: u32, i: nat, off: nat,
      bytes: seq<byte>, len: u32)
    requires RefAt(t.list, p, i, s)
    requires FileMoved(g, v, t, w, t1, s) && off + |bytes| <= len
    requires Content(g, w, t1, s, len) == Spliced(Content(g, v, t, s, len), off, bytes)
    ensures Wrote(g, v, t, w, t1, s, p, i, off, bytes, len, len)
  {
    hide Content, Pick, Addrs, Reaches, Drew;
  }

  lemma WroteMore(g: Geometry, v: Volume, t: Tree, u: Volume, t1: Tree, w: Volume, t2: Tree, s: u32, p: u32, i: nat,
      off: nat, bytes: seq<byte>, len: u32, len': u32)
    requires RefAt(t.list, p, i, s)
    requires FileMoved(g, v, t, u, t1, s) && OthersKept(g, u, t1, w, t2, p) && SizeChanged(t1, t2, p, i, len')
    requires Reaches(g, u, t1, w, t2) && w.T == u.T
    requires len < len' == off + |bytes| && off <= len && s != p
    requires Content(g, u, t1, s, len') == Spliced(Content(g, v, t, s, len), off, bytes)
    ensures Wrote(g, v, t, w, t2, s, p, i, off, bytes, len, len')
  {
    hide Reaches, Drew;
    ReachesOn(g, v, t, u, t1, w, t2);
    SameFile(g, u, t1, w, t2, p, s);
    assert Content(g, w, t2, s, len') == Content(g, u, t1, s, len');
    hide Content, Pick, Addrs, WithSize;
    forall x | x in t.chains && x != s && x != p
      ensures t2.chains[x] == t.chains[x] && SameSectors(g, v, w, t.chains[x])
    {
      assert t1.chains[x] == t.chains[x] && t2.chains[x] == t1.chains[x];
    }
  }

  lemma FileIsNoParent(fs: FatFs, file: OpenFile, t: Tree, i: nat)
    requires OpenIn(fs, file, t, i)
    ensures file.start != file.parent && EntryOf(file, t, i, file.len)
    ensures RefAt(t.list, file.parent, i, file.start)
    ensures file.len <= SECTOR_SIZE * |SectorsOf(fs.geo, fs.State().data, t.chains[file.start])|
  {
    hide Ready, SectorsOf;
  }

  /** _fs_write_file. */
  method WriteFile(fs: FatFs, file: OpenFile, bytes: seq<byte>, off: u32, ghost t: Tree, ghost i: nat)
    returns (written: nat, panicked: bool, ghost t': Tree)
    requires OpenIn(fs, file, t, i) && off <= file.len && off + |bytes| < 0x1_0000_0000 && fs.geo.sectorsPerCluster >= 1
    requires Supply(fs.geo, fs.State().T, t.chains[file.start], Plan(fs.geo, off + |bytes|))
    modifies file`lastIndex, file`lastCluster, file`dataSector, file`dataAddress, file`len, fs, fs.table, fs.disk
    ensures written <= |bytes|
    ensures !panicked ==> OpenIn(fs, file, t', i)
    ensures !panicked ==>
      Wrote(fs.geo, old(fs.State()), t, fs.State(), t', file.start, file.parent, i, off, bytes[..written],
        old(file.len), file.len)
    ensures panicked <==> OutcomeOf(fs.geo, old(fs.State()).T, t.chains[file.start], off + |bytes|) == Panic
    ensures !panicked ==>
              (written == |bytes| <==>
                  OutcomeOf(fs.geo, old(fs.State()).T, t.chains[file.start], off + |bytes|) == Done)
    ensures !panicked && written == |bytes| ==> AsLong(t, t', file.start, Plan(fs.geo, off + |bytes|))
    ensures !panicked && written < |bytes| ==>
      && file.start in t'.chains
      && Exhausted(fs.geo, old(fs.State()).T, t.chains[file.start], t'.chains[file.start], off + written)
  {
    hide *;
    ghost var g, v, c, len := fs.geo, fs.State(), Plan(fs.geo, off + |bytes|), file.len;
    UnderwayStart(fs, file, t, i, off, bytes, c);
    FileIsNoParent(fs, file, t, i);
    InChains(fs, file, t, i);
    ghost var t1;
    written, panicked, t1 := WriteLoop(fs, file, bytes, off, v, t, c);
    t' := t1;
    EndedParts(g, v.T, t.chains[file.start], t1, file.start, off, |bytes|, written, panicked);
    if panicked {
      return;
    }
    UnderwayDone(fs, file, v, t, t1, i, off, bytes, written, c, len);
    UnderwayChain(fs, file, v, t, t1, off, bytes, written, c);
    ghost var u := fs.State();
    LengthReached(g, u.data, t, t1, file.start, off, bytes, written);
    if off + written > file.len {
      t' := Extend(fs, file, off + written, t1, i);
      WroteMore(g, v, t, u, t1, fs.State(), t', file.start, file.parent, i, off, bytes[..written], len, file.len);
      ExtendedChain(t1, t', file.parent, i, file.len);
    } else {
      WroteSame(g, v, t, u, t1, file.start, file.parent, i, off, bytes[..written], len);
    }
  }

  ghost predicate AsLong(t: Tree, t': Tree, s: u32, c: nat) {
    s in t.chains && s in t'.chains && |t'.chains[s]| == if c > |t.chains[s]| then c else |t.chains[s]|
  }

  lemma InChains(fs: FatFs, file: OpenFile, t: Tree, i: nat)
    requires OpenIn(fs, file, t, i)
    ensures file.start in t.chains
  {
  }

  lemma LengthReached(g: Geometry, data: seq<Sector>, t: Tree, t1: Tree, s: u32, off: nat, bytes: seq<byte>, n: nat)
    requires g.sectorsPerCluster >= 1 && s in t.chains && s in t1.chains && t.chains[s] <= t1.chains[s]
    requires t1.chains[s] == t.chains[s] || |t1.chains[s]| <= Plan(g, off + |bytes|)
    requires n <= |bytes| && off + n <= SECTOR_SIZE * |SectorsOf(g, data, t1.chains[s])|
    ensures n == |bytes| ==> AsLong(t, t1, s, Plan(g, off + |bytes|))
  {
    hide Plan, SectorsOf;
    if n == |bytes| {
      PlanReached(g, data, t.chains[s], t1.chains[s], off + |bytes|);
    }
  }

  lemma EndedParts(g: Geometry, T: seq<u32>, ch: seq<u32>, t: Tree, s: u32, off: nat, count: nat, written: nat,
      panicked: bool)
    requires Ended(g, T, ch, t, s, off, count, written, panicked)
    ensures g.sectorsPerCluster >= 1 && s in t.chains
    ensures panicked <==> OutcomeOf(g, T, ch, off + count) == Panic
    ensures !panicked ==> (written == count <==> OutcomeOf(g, T, ch, off + count) == Done)
    ensures !panicked && written < count ==> Exhausted(g, T, ch, t.chains[s], off + written)
  {
    hide OutcomeOf, Exhausted;
  }

  lemma ExtendedChain(t: Tree, t': Tree, p: u32, i: nat, size: u32)
    requires SizeChanged(t, t', p, i, size)
    ensures t'.chains == t.chains
    ensures forall s, c: nat, t0: Tree :: AsLong(t0, t, s, c) ==> AsLong(t0, t', s, c)
  {
    hide WithSize;
  }

  // ----- opening

  /** _fs_open_file: the file of the first pair of this name, if there is one. */
  method Open(fs: FatFs, d: u32, name: seq<byte>, ghost t: Tree) returns (file: OpenFile?, ghost i: nat)
    requires Ready(fs, t) && d in t.list && CString(name)
    modifies fs, fs.table, fs.disk
    ensures Ready(fs, t) && fs.State() == old(fs.State())
    ensures FirstIn(t.list[d], name, i) && (file != null <==> i < |t.list[d]|)
    ensures file != null ==> fresh(file) && file.parent == d && (file.start !in t.list ==> OpenIn(fs, file, t, i))
    ensures file != null ==> file.start == StartCluster(t.list[d][i].record)
    ensures file != null ==>
      var r := t.list[d][i].record;
      && file.short == r[..11]
      && file.start == r[26] as int + 0x100 * r[27] as int + 0x1_0000 * r[20] as int + 0x100_0000 * r[21] as int
      && file.len == r[28] as int + 0x100 * r[29] as int + 0x1_0000 * r[30] as int + 0x100_0000 * r[31] as int
  {
    hide *;
    var found, entry;
    ghost var k;
    found, entry, i, k := Lookup(fs, d, name, t);
    file := null;
    if found {
      file := new OpenFile(entry, d);
      Opened(fs, file, t, d, i);
    }
  }

  lemma Opened(fs: FatFs, file: OpenFile, t: Tree, d: u32, i: nat)
    requires Ready(fs, t) && d in t.list && i < |t.list[d]|
    requires var r := t.list[d][i].record;
      file.start == StartCluster(r) && file.parent == d && file.short == r[..11] && file.len == FileSize(r)
    requires file.lastIndex == UNSET && file.dataAddress == UNSET
    ensures file.start !in t.list ==> OpenIn(fs, file, t, i)
  {
    hide FatFs.Valid, CurAt, Owned, Stocked, NamesDiffer, OneRefEach, KindsAgree, AllNamed, StartCluster, FileSize;
    hide SectorsOf, Capacity, Span, Geometry.Ok;
    assert RefAt(t.list, d, i, file.start);
    assert file.start in t.chains;
    SectorsHold(fs.geo, fs.State().data, t.chains[file.start]);
  }

  /** An open file may be read. */
  lemma OpenReadable(fs: FatFs, file: OpenFile, t: Tree, i: nat)
    requires OpenIn(fs, file, t, i)
    ensures file.start in t.chains
    ensures Readable(fs, file, t.chains[file.start], SectorsOf(fs.geo, fs.State().data, t.chains[file.start]))
  {
    hide Ready, SectorsOf, ChainOf, OpenFile.LookupOk, OpenFile.SectorOk;
    FileOfParts(fs, t, file.start);
  }

  /** What was written is what a later read of the same bytes finds; the bytes around it are as before. */
  lemma ReadBack(g: Geometry, v: Volume, t: Tree, w: Volume, t': Tree, s: u32, p: u32, i: nat, off: nat,
      bytes: seq<byte>, len: u32, len': u32)
    requires Wrote(g, v, t, w, t', s, p, i, off, bytes, len, len')
    ensures var secs, secs' := SectorsOf(g, v.data, t.chains[s]), SectorsOf(g, w.data, t'.chains[s]);
      && Bytes(secs', off, |bytes|) == bytes
      && Bytes(secs', 0, off) == Bytes(secs, 0, off)
      && (off + |bytes| < len ==>
            Bytes(secs', off + |bytes|, len - off - |bytes|) == Bytes(secs, off + |bytes|, len - off - |bytes|))
  {
    hide ByteOf, SectorsOf, Wrote, Bytes, Spliced, Content;
    assert s in t.chains && s in t'.chains && off <= len <= len' == (if off + |bytes| > len then off + |bytes| else len)
      && Bytes(SectorsOf(g, w.data, t'.chains[s]), 0, len') ==
              Spliced(Bytes(SectorsOf(g, v.data, t.chains[s]), 0, len), off, bytes) by {
      WroteContent(g, v, t, w, t', s, p, i, off, bytes, len, len');
    }
    SplicedParts(Bytes(SectorsOf(g, v.data, t.chains[s]), 0, len), off, bytes);
    var secs, secs', n := SectorsOf(g, v.data, t.chains[s]), SectorsOf(g, w.data, t'.chains[s]), |bytes|;
    BytesWindow(secs', 0, len', 0, off);
    BytesWindow(secs', 0, len', off, n);
    BytesWindow(secs, 0, len, 0, off);
    if off + n < len {
      BytesWindow(secs', 0, len', off + n, len - off - n);
      BytesWindow(secs, 0, len, off + n, len - off - n);
    }
  }

  lemma WroteContent(g: Geometry, v: Volume, t: Tree, w: Volume, t': Tree, s: u32, p: u32, i: nat, off: nat,
      bytes: seq<byte>, len: u32, len': u32)
    requires Wrote(g, v, t, w, t', s, p, i, off, bytes, len, len')
    ensures s in t.chains && s in t'.chains && off <= len <= len' == if off + |bytes| > len then off + |bytes| else len
    ensures Bytes(SectorsOf(g, w.data, t'.chains[s]), 0, len') ==
            Spliced(Bytes(SectorsOf(g, v.data, t.chains[s]), 0, len), off, bytes)
  {
    hide ByteOf, SectorsOf, SizeChanged, SameSectors, Bytes, Spliced, Reaches, Drew;
  }

  lemma SplicedParts(c: seq<byte>, off: nat, bytes: seq<byte>)
    requires off <= |c|
    ensures var r, n := Spliced(c, off, bytes), |bytes|;
      && |r| == (if off + n < |c| then |c| else off + n) && r[0..off] == c[0..off] && r[off..off + n] == bytes
      && (off + n < |c| ==> r[off + n..off + n + (|c| - off - n)] == c[off + n..off + n + (|c| - off - n)])
  {
  }

  lemma BytesWindow(secs: seq<Sector>, p: nat, n: nat, from: nat, m: nat)
    requires from + m <= n
    ensures Bytes(secs, p, n)[from..from + m] == Bytes(secs, p + from, m)
  {
    hide ByteOf;
  }
}
