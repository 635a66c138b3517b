/** Formatting a volume and mounting it. */
module Format {
  import opened Words
  import Arith
  import opened Layout
  import opened BlockDevice
  import opened FatTables
  import opened Chains
  import opened Contents
  import opened Directories
  import opened Access
  import opened DirScan
  import opened Ownership
  import opened Allocation
  import opened Volumes
  import opened Operations

  // ----- cluster sizes

  datatype SizeRow = SizeRow(sectors: u32, sectorsPerCluster: byte)

  const TABLE16: seq<SizeRow> := [
    SizeRow(32680, 2), SizeRow(262144, 4), SizeRow(524288, 8), SizeRow(1048576, 16),
    SizeRow(2097152, 32), SizeRow(4194304, 64), SizeRow(8388608, 128), SizeRow(0, 0)]

  const TABLE32: seq<SizeRow> := [
    SizeRow(532480, 1), SizeRow(16777216, 8), SizeRow(33554432, 16), SizeRow(67108864, 32),
    SizeRow(0xFFFF_FFFF, 64), SizeRow(0, 0)]

  /** The first row that is wide enough, or zero. */
  function ClusterSize(table: seq<SizeRow>, sectors: u32): byte {
    if table == [] || table[0].sectorsPerCluster == 0 then 0
    else if sectors <= table[0].sectors then table[0].sectorsPerCluster
    else ClusterSize(table[1..], sectors)
  }

  /** fatfs_calc_cluster_size. */
  method CalcClusterSize(sectors: u32, fat32: bool) returns (size: byte)
    ensures size == ClusterSize(if fat32 then TABLE32 else TABLE16, sectors)
  {
    var table := if fat32 then TABLE32 else TABLE16;
    EndsWithZero();
    hide TABLE16, TABLE32;
    var i := 0;
    assert table[0..] == table;
    while table[i].sectorsPerCluster != 0
      invariant 0 <= i < |table| && ClusterSize(table, sectors) == ClusterSize(table[i..], sectors)
      decreases |table| - i
    {
      if sectors <= table[i].sectors {
        return table[i].sectorsPerCluster;
      }
      assert table[i..][1..] == table[i + 1..];
      i := i + 1;
    }
    return 0;
  }

  lemma EndsWithZero()
    ensures |TABLE16| > 0 && TABLE16[|TABLE16| - 1].sectorsPerCluster == 0
    ensures |TABLE32| > 0 && TABLE32[|TABLE32| - 1].sectorsPerCluster == 0
  {
  }

  // ----- the boot sector

  /** What the two formats write and the mount reads back. */
  datatype Parameters = Parameters(sectorsPerCluster: byte, reserved: u16, fats: byte, rootEntries: u16,
    fatSectors: u32, total: u32)

  predicate CommonFields(s: Sector, p: Parameters) {
    && Get16(s, 11) == 512 && s[13] == p.sectorsPerCluster && Get16(s, 14) == p.reserved && s[16] == p.fats
    && Get16(s, 17) == p.rootEntries
    && Get16(s, 19) == 0
  }

  /** The jump, the name of the maker, and the medium. */
  predicate BootStart(s: Sector) {
    && s[0] == 0xEB && s[1] == 0x3C && s[2] == 0x90 && s[3] == 0x4D && s[4] == 0x53 && s[5] == 0x44 && s[6] == 0x4F
    && s[7] == 0x53 && s[8] == 0x35 && s[9] == 0x2E && s[10] == 0x30 && s[21] == 0xF8
  }

  /** The extended signature, the serial number, and the name of the file system. */
  predicate BootTail(s: Sector, at: nat, a: byte, b: byte)
    requires at + 26 <= 512
  {
    && s[at] == 0 && s[at + 1] == 0 && s[at + 2] == 0x29 && s[at + 3] == 0x12 && s[at + 4] == 0x34
    && s[at + 5] == 0x56 && s[at + 6] == 0x78
    && s[at + 18] == 0x46 && s[at + 19] == 0x41 && s[at + 20] == 0x54 && s[at + 21] == a && s[at + 22] == b
    && s[at + 23] == 0x20 && s[at + 24] == 0x20 && s[at + 25] == 0x20
    && forall k :: at + 26 <= k < 510 ==> s[k] == 0
  }

  /** Sectors to a track, heads and hidden sectors. */
  predicate BootGeometry(s: Sector, track: byte, heads: byte, hidden: byte) {
    && s[24] == track && s[25] == 0 && s[26] == heads && s[27] == 0 && s[28] == hidden
    && s[29] == 0 && s[30] == 0 && s[31] == 0
  }

  method BootHead(p: Parameters) returns (s: Sector)
    ensures CommonFields(s, p) && forall k :: 22 <= k < 512 ==> s[k] == 0
    ensures BootStart(s)
  {
    s := Blank();
    s := s[0 := 0xEB][1 := 0x3C][2 := 0x90][3 := 0x4D][4 := 0x53][5 := 0x44]
            [6 := 0x4F][7 := 0x53][8 := 0x35][9 := 0x2E][10 := 0x30];
    s := s[11 := 512 % 0x100][12 := 512 / 0x100];
    s := s[13 := p.sectorsPerCluster];
    s := s[14 := p.reserved % 0x100][15 := p.reserved / 0x100];
    s := s[16 := p.fats];
    s := s[17 := p.rootEntries % 0x100][18 := p.rootEntries / 0x100];
    s := s[19 := 0][20 := 0];
    s := s[21 := 0xF8];
  }

  predicate Signed(s: Sector) { s[510] == 0x55 && s[511] == 0xAA }

  /** The fields of a FAT16 boot sector. */
  predicate BootFields16(s: Sector, p: Parameters) {
    && CommonFields(s, p) && Get16(s, 22) == p.fatSectors && Get32(s, 32) == p.total && Signed(s) && s[450] == 0
  }

  /** The fields of a FAT32 boot sector. */
  predicate BootFields32(s: Sector, p: Parameters) {
    && CommonFields(s, p) && Get16(s, 22) == 0 && Get32(s, 32) == p.total && Get32(s, 36) == p.fatSectors
    && Get32(s, 44) == 2 && Get16(s, 48) == 1 && Signed(s) && s[450] == 0
  }

  /** The volume name, filled up with spaces. */
  predicate Labelled(s: Sector, at: nat, name: seq<byte>)
    requires at + 11 <= SECTOR_SIZE
  {
    forall k :: 0 <= k < 11 ==> s[at + k] == if k < |name| then name[k] else 0x20
  }

  /** The loop that writes the volume name. */
  method PutName(s: Sector, at: nat, name: seq<byte>) returns (r: Sector)
    requires at + 11 <= SECTOR_SIZE
    ensures Labelled(r, at, name)
    ensures forall k :: 0 <= k < SECTOR_SIZE && !(at <= k < at + 11) ==> r[k] == s[k]
  {
    r := s;
    for i := 0 to 11
      invariant forall k :: 0 <= k < i ==> r[at + k] == if k < |name| then name[k] else 0x20
      invariant forall k :: 0 <= k < SECTOR_SIZE && !(at <= k < at + 11) ==> r[k] == s[k]
    {
      r := r[at + i := if i < |name| then name[i] else 0x20];
    }
  }

  /** s with the bytes from at on replaced. */
  function Laid(s: Sector, at: nat, bytes: seq<byte>): (r: Sector)
    requires at + |bytes| <= SECTOR_SIZE
    ensures forall k :: 0 <= k < SECTOR_SIZE ==> r[k] == if at <= k < at + |bytes| then bytes[k - at] else s[k]
  {
    s[..at] + bytes + s[at + |bytes|..]
  }

  lemma CommonKept(s: Sector, r: Sector, p: Parameters)
    requires CommonFields(s, p) && forall k :: 0 <= k < 22 ==> r[k] == s[k]
    ensures CommonFields(r, p)
  {
  }

  /** Bytes 22 to 35: the 16-bit FAT size, geometry nobody reads, and the number of sectors. */
  method BootMiddle(head: Sector, p: Parameters, fatSize: u16, geometry: seq<byte>) returns (s: Sector)
    requires CommonFields(head, p) && (forall k :: 22 <= k < 512 ==> head[k] == 0) && |geometry| == 8
    ensures CommonFields(s, p) && Get16(s, 22) == fatSize && Get32(s, 32) == p.total
    ensures forall k :: 36 <= k < 512 ==> s[k] == 0
    ensures forall k :: 0 <= k < 32 && !(22 <= k < 24) ==> s[k] == if k < 22 then head[k] else geometry[k - 24]
  {
    var v: u32 := p.total;
    var total: seq<byte> := [v % 0x100, v / 0x100 % 0x100, v / 0x1_0000 % 0x100, v / 0x100_0000];
    var bytes := [fatSize % 0x100, fatSize / 0x100] + geometry + total;
    Bytes16(fatSize);
    Bytes32(v);
    hide CommonFields;
    s := Laid(head, 22, bytes);
    CommonKept(head, s, p);
    assert s[22] == bytes[0] && s[23] == bytes[1];
    assert s[32] == bytes[10] && s[33] == bytes[11] && s[34] == bytes[12] && s[35] == bytes[13];
  }

  /** Nothing behind byte 36 matters to the fields before it. */
  lemma MiddleKept(s: Sector, r: Sector, p: Parameters)
    requires CommonFields(s, p) && forall k :: 0 <= k < 36 ==> r[k] == s[k]
    ensures CommonFields(r, p) && Get16(r, 22) == Get16(s, 22) && Get32(r, 32) == Get32(s, 32)
  {
  }

  /** The serial number, the volume name, the name of the file system and the signature. */
  method BootEnd(s0: Sector, at: nat, name: seq<byte>, a: byte, b: byte) returns (s: Sector)
    requires at + 26 <= 450 && forall k :: at <= k < 512 ==> s0[k] == 0
    ensures BootTail(s, at, a, b) && Labelled(s, at + 7, name) && Signed(s)
    ensures forall k :: 0 <= k < at ==> s[k] == s0[k]
  {
    var serial: seq<byte> := [0, 0, 0x29, 0x12, 0x34, 0x56, 0x78];
    var kind: seq<byte> := [0x46, 0x41, 0x54, a, b, 0x20, 0x20, 0x20];
    hide Laid, Labelled;
    s := Laid(s0, at, serial);
    s := PutName(s, at + 7, name);
    ghost var named := s;
    s := Laid(s, at + 18, kind);
    s := Laid(s, 510, [0x55, 0xAA]);
    LabelKept(named, s, at + 7, name);
  }

  lemma LabelKept(s: Sector, r: Sector, at: nat, name: seq<byte>)
    requires at + 11 <= SECTOR_SIZE && Labelled(s, at, name) && forall k :: at <= k < at + 11 ==> r[k] == s[k]
    ensures Labelled(r, at, name)
  {
  }

  /** The bytes in front are those of the parts they were made of. */
  lemma HeadKept(head: Sector, s: Sector, geometry: seq<byte>, track: byte, heads: byte, hidden: byte)
    requires geometry == [track, 0, heads, 0, hidden, 0, 0, 0] && BootStart(head)
    requires forall k :: 0 <= k < 32 && !(22 <= k < 24) ==> s[k] == if k < 22 then head[k] else geometry[k - 24]
    ensures BootStart(s) && BootGeometry(s, track, heads, hidden)
  {
  }

  method BootSector16(p: Parameters, name: seq<byte>) returns (s: Sector)
    requires p.fatSectors < 0x1_0000
    ensures BootFields16(s, p) && Labelled(s, 43, name)
    ensures BootStart(s) && BootGeometry(s, 0, 0, 0x20) && BootTail(s, 36, 0x31, 0x36)
  {
    hide CommonFields, BootStart, BootGeometry, Labelled;
    var head := BootHead(p);
    var geometry: seq<byte> := [0, 0, 0, 0, 0x20, 0, 0, 0];
    var middle := BootMiddle(head, p, p.fatSectors, geometry);
    s := BootEnd(middle, 36, name, 0x31, 0x36);
    MiddleKept(middle, s, p);
    HeadKept(head, s, geometry, 0, 0, 0x20);
  }

  /** Bytes 36 to 49: the 32-bit FAT size, the root directory's cluster and the FSINFO sector. */
  method BootMiddle32(s0: Sector, p: Parameters) returns (s: Sector)
    ensures Get32(s, 36) == p.fatSectors && Get32(s, 44) == 2 && Get16(s, 48) == 1
    ensures forall k :: 0 <= k < 512 && !(36 <= k < 50) ==> s[k] == s0[k]
  {
    var v: u32 := p.fatSectors;
    var bytes: seq<byte> := [v % 0x100, v / 0x100 % 0x100, v / 0x1_0000 % 0x100, v / 0x100_0000, 0, 0, 0, 0, 2, 0, 0, 0,
        1, 0];
    Bytes32(v);
    s := Laid(s0, 36, bytes);
    assert s[36] == bytes[0] && s[37] == bytes[1] && s[38] == bytes[2] && s[39] == bytes[3];
    assert s[44] == bytes[8] && s[45] == bytes[9] && s[46] == bytes[10] &&
           s[47] == bytes[11] && s[48] == bytes[12] && s[49] == bytes[13];
  }

  lemma Middle32Kept(s: Sector, r: Sector)
    requires forall k :: 36 <= k < 50 ==> r[k] == s[k]
    ensures Get32(r, 36) == Get32(s, 36) && Get32(r, 44) == Get32(s, 44) && Get16(r, 48) == Get16(s, 48)
  {
  }

  method BootSector32(p: Parameters, name: seq<byte>) returns (s: Sector)
    ensures BootFields32(s, p) && Labelled(s, 71, name)
    ensures BootStart(s) && BootGeometry(s, 0x3F, 0xFF, 0) && BootTail(s, 64, 0x33, 0x32)
    ensures s[50] == 6 && forall k :: 51 <= k < 64 ==> s[k] == 0
  {
    hide CommonFields, BootStart, BootGeometry, Labelled, Laid, Get16, Get32;
    var head := BootHead(p);
    var geometry: seq<byte> := [0x3F, 0, 0xFF, 0, 0, 0, 0, 0];
    var middle := BootMiddle(head, p, 0, geometry);
    var fields := BootMiddle32(middle, p);
    s := Laid(fields, 50, [6, 0]);
    s := BootEnd(s, 64, name, 0x33, 0x32);
    MiddleKept(middle, s, p);
    Middle32Kept(fields, s);
    HeadKept(head, s, geometry, 0x3F, 0xFF, 0);
  }

  // ----- formatting

  /** The number of FAT sectors for a volume. */
  function FatSectors(total: u32, sectorsPerCluster: nat, fat32: bool): (n: nat)
    requires sectorsPerCluster > 0
    ensures n >= 1
  {
    Arith.DivBelow(total, 0, sectorsPerCluster);
    var clusters: nat := total / sectorsPerCluster + 1;
    (if fat32 then clusters / 128 else clusters / 256) + 1
  }

  /** It is the least with an entry for every cluster of the volume and two more. */
  lemma LeastFat(total: u32, w: nat, fat32: bool)
    requires w > 0
    ensures var n, per := FatSectors(total, w, fat32), if fat32 then 128 else 256;
      per * (n - 1) <= total / w + 1 < per * n
  {
    Arith.DivBelow(total, 0, w);
  }

  function Parameters16(total: u32): (p: Parameters)
    requires ClusterSize(TABLE16, total) != 0
    ensures p.fatSectors < 0x1_0000
  {
    var w := ClusterSize(TABLE16, total);
    Sizes16(total);
    Parameters(w, 8, 2, 512, FatSectors(total, w, false), total)
  }

  function Parameters32(total: u32): (p: Parameters)
    ensures p.fatSectors < 0x200_0000
  {
    var w := ClusterSize(TABLE32, total);
    Sizes32(total);
    Parameters(w, 32, 2, 0, FatSectors(total, w, true), total)
  }

  /** The table, row by row. */
  lemma Sizes16(total: u32)
    ensures var w := ClusterSize(TABLE16, total);
      && (total <= 32680 ==> w == 2) && (32680 < total <= 262144 ==> w == 4) && (262144 < total <= 524288 ==> w == 8)
      && (524288 < total <= 1048576 ==> w == 16) && (1048576 < total <= 2097152 ==> w == 32)
      && (2097152 < total <= 4194304 ==> w == 64) && (4194304 < total <= 8388608 ==> w == 128)
      && (8388608 < total ==> w == 0)
      && (w != 0 ==> FatSectors(total, w, false) <= 257)
  {
    var t := TABLE16;
    RowsFrom(t, 0, total);
    RowsFrom(t, 1, total);
    RowsFrom(t, 2, total);
    RowsFrom(t, 3, total);
    RowsFrom(t, 4, total);
    RowsFrom(t, 5, total);
    RowsFrom(t, 6, total);
    RowsFrom(t, 7, total);
  }

  lemma RowsFrom(t: seq<SizeRow>, i: nat, total: u32)
    requires i < |t|
    ensures ClusterSize(t[i..], total) ==
            if t[i].sectorsPerCluster == 0 then 0
            else if total <= t[i].sectors then t[i].sectorsPerCluster else ClusterSize(t[i + 1..], total)
    ensures t[0..] == t
  {
    assert t[i..][1..] == t[i + 1..];
  }

  lemma Sizes32(total: u32)
    ensures var w := ClusterSize(TABLE32, total);
      && (total <= 532480 ==> w == 1) && (532480 < total <= 16777216 ==> w == 8)
      && (16777216 < total <= 33554432 ==> w == 16)
      && (33554432 < total <= 67108864 ==> w == 32) && (67108864 < total ==> w == 64)
      && w != 0 && FatSectors(total, w, true) <= 524289
  {
    var t := TABLE32;
    RowsFrom(t, 0, total);
    RowsFrom(t, 1, total);
    RowsFrom(t, 2, total);
    RowsFrom(t, 3, total);
    RowsFrom(t, 4, total);
    RowsFrom(t, 5, total);
  }

  /** The first FAT sector of a fresh volume: the reserved entries, and the end of the FAT32 root directory. */
  function FirstFat(fat32: bool): Sector {
    if fat32 then Put32(Put32(Put32(Blank(), 0, 0x0FFF_FFF8), 4, 0xFFFF_FFFF), 8, 0x0FFF_FFFF)
    else Put16(Put16(Blank(), 0, 0xFFF8), 2, 0xFFFF)
  }

  /** Sectors a .. b-1 of a disk are zero. */
  ghost predicate Zeroed(sectors: seq<Sector>, a: nat, b: nat) {
    b <= |sectors| && forall k :: a <= k < b ==> sectors[k] == Blank()
  }

  /** Outside the given sectors the disks agree. */
  ghost predicate SameOutside(before: seq<Sector>, after: seq<Sector>, a: nat, b: nat) {
    |after| == |before| && forall k :: 0 <= k < |before| && !(a <= k < b) ==> after[k] == before[k]
  }

  /** fatfs_erase_sectors, and the second loop of fatfs_erase_fat. */
  method EraseSectors(disk: Disk, lba: nat, count: nat) returns (ok: bool)
    requires lba + count < 0x1_0000_0000
    modifies disk
    ensures ok ==> Zeroed(disk.sectors, lba, lba + count)
    ensures SameOutside(old(disk.sectors), disk.sectors, lba, lba + count)
    ensures disk.reliable && lba + count <= |disk.sectors| ==> ok
  {
    hide Blank;
    ok := true;
    for i := 0 to count
      invariant ok && |disk.sectors| == |old(disk.sectors)| && (i > 0 ==> lba + i <= |disk.sectors|)
      invariant SameOutside(old(disk.sectors), disk.sectors, lba, lba + count)
      invariant forall k :: lba <= k < lba + i && k < |disk.sectors| ==> disk.sectors[k] == Blank()
    {
      ok := disk.WriteOne(lba + i, Blank());
      if !ok {
        return;
      }
    }
    if count == 0 {
      ok := lba <= |disk.sectors|;
    }
  }

  /** fatfs_erase_fat. */
  method EraseFat(disk: Disk, fatBegin: nat, sectors: nat, fat32: bool) returns (ok: bool)
    requires fatBegin + sectors < 0x1_0000_0000 && sectors >= 1
    modifies disk
    ensures ok ==> Zeroed(disk.sectors, fatBegin + 1, fatBegin + sectors) && disk.sectors[fatBegin] == FirstFat(fat32)
    ensures SameOutside(old(disk.sectors), disk.sectors, fatBegin, fatBegin + sectors)
    ensures disk.reliable && fatBegin + sectors <= |disk.sectors| ==> ok
  {
    hide Blank, FirstFat;
    ok := disk.WriteOne(fatBegin, FirstFat(fat32));
    if !ok {
      return;
    }
    ok := EraseSectors(disk, fatBegin + 1, sectors - 1);
  }

  /** A disk as fatfs_format_fat16 leaves it. */
  ghost predicate Formatted16(sectors: seq<Sector>, p: Parameters) {
    var root := 8 + 2 * p.fatSectors;
    && p.fatSectors >= 1 && root + 32 <= |sectors| && BootFields16(sectors[0], p) && sectors[8] == FirstFat(false)
    && Zeroed(sectors, 9, root) && Zeroed(sectors, root, root + 32)
  }

  /** A disk as fatfs_format_fat32 leaves it. */
  ghost predicate Formatted32(sectors: seq<Sector>, p: Parameters) {
    var data := 32 + 2 * p.fatSectors;
    && p.fatSectors >= 1 && data + p.sectorsPerCluster <= |sectors| && BootFields32(sectors[0], p)
    && sectors[1] == FsInfoSector()
    && sectors[32] == FirstFat(true)
    && Zeroed(sectors, 33, data) && Zeroed(sectors, data, data + p.sectorsPerCluster)
  }

  /** The first bytes of a fresh FAT. */
  lemma FirstFatBytes(k: nat)
    requires k < 512
    ensures FirstFat(false)[k] == if k == 0 then 0xF8 else if 1 <= k < 4 then 0xFF else 0
    ensures FirstFat(true)[k] ==
            if k == 0 then 0xF8 else if k == 8 then 0xFF else if k == 3 || k == 11 then 0x0F
            else if k < 12 then 0xFF else 0
  {
  }

  lemma SmallBytes(s: Sector)
    ensures Get16(s, 11) == 512 ==> s[11] == 0 && s[12] == 2
    ensures Get16(s, 17) == 512 ==> s[17] == 0 && s[18] == 2
    ensures Get16(s, 17) == 0 ==> s[17] == 0 && s[18] == 0
    ensures Get16(s, 19) == 0 ==> s[19] == 0 && s[20] == 0
    ensures Get16(s, 14) == 8 ==> s[14] == 8 && s[15] == 0
    ensures Get16(s, 14) == 32 ==> s[14] == 32 && s[15] == 0
    ensures Get16(s, 22) == 0 ==> s[22] == 0 && s[23] == 0
    ensures Get16(s, 48) == 1 ==> s[48] == 1 && s[49] == 0
    ensures Get32(s, 44) == 2 ==> s[44] == 2 && s[45] == 0 && s[46] == 0 && s[47] == 0
  {
  }

  /**
   * Byte for byte what the driver reads of a volume formatted as FAT16: the sizes, eight reserved
   * sectors, two FATs and 512 entries in the boot sector, the FATs in sectors 8 and up, and the root
   * directory behind them.
   */
  lemma Format16Bytes(sectors: seq<Sector>, total: u32)
    requires ClusterSize(TABLE16, total) != 0 && Formatted16(sectors, Parameters16(total))
    ensures var s, n := sectors[0], FatSectors(total, ClusterSize(TABLE16, total), false);
      && s[11] == 0 && s[12] == 2 && s[13] == ClusterSize(TABLE16, total) && s[14] == 8 && s[15] == 0 && s[16] == 2
      && s[17] == 0 && s[18] == 2 && s[19] == 0 && s[20] == 0 && s[450] == 0 && s[510] == 0x55 && s[511] == 0xAA
      && s[22] as int + 0x100 * s[23] as int == n
      && s[32] as int + 0x100 * s[33] as int + 0x1_0000 * s[34] as int + 0x100_0000 * s[35] as int == total
      && 8 + 2 * n + 32 <= |sectors| && sectors[8] == FirstFat(false)
      && forall k :: 9 <= k < 8 + 2 * n + 32 ==> sectors[k] == Blank()
  {
    SmallBytes(sectors[0]);
    LowByteFirst(sectors[0], 22);
    LowByteFirst(sectors[0], 32);
    hide Get16, Get32, Blank, FirstFat, ClusterSize, FatSectors;
  }

  /**
   * And of one formatted as FAT32: the root directory in cluster 2, the FSINFO sector in sector 1, and
   * the FATs in sectors 32 and up.
   */
  lemma Format32Bytes(sectors: seq<Sector>, total: u32)
    requires Formatted32(sectors, Parameters32(total))
    ensures var s, n, w := sectors[0], Parameters32(total).fatSectors, ClusterSize(TABLE32, total);
      && w > 0 && n == FatSectors(total, w, true)
      && s[11] == 0 && s[12] == 2 && s[13] == w && s[14] == 32 && s[15] == 0 && s[16] == 2
      && s[17] == 0 && s[18] == 0 && s[19] == 0 && s[20] == 0 && s[450] == 0 && s[510] == 0x55 && s[511] == 0xAA
      && s[22] == 0 && s[23] == 0
      && s[32] as int + 0x100 * s[33] as int + 0x1_0000 * s[34] as int + 0x100_0000 * s[35] as int == total
      && s[36] as int + 0x100 * s[37] as int + 0x1_0000 * s[38] as int + 0x100_0000 * s[39] as int == n
      && s[44] == 2 && s[45] == 0 && s[46] == 0 && s[47] == 0 && s[48] == 1 && s[49] == 0
      && 32 + 2 * n + w <= |sectors| && sectors[1] == FsInfoSector() && sectors[32] == FirstFat(true)
      && forall k :: 33 <= k < 32 + 2 * n + w ==> sectors[k] == Blank()
  {
    Sizes32(total);
    SmallBytes(sectors[0]);
    LowByteFirst(sectors[0], 32);
    LowByteFirst(sectors[0], 36);
    hide Get16, Get32, Blank, FirstFat, ClusterSize, FatSectors, FsInfoSector;
  }

  /** fatfs_format_fat16. */
  method FormatFat16(disk: Disk, total: u32, name: seq<byte>) returns (ok: bool)
    modifies disk
    ensures |disk.sectors| == |old(disk.sectors)|
    ensures ok ==>
              && ClusterSize(TABLE16, total) != 0 && Formatted16(disk.sectors, Parameters16(total))
              && Labelled(disk.sectors[0], 43, name)
    ensures ok ==> SameOutside(old(disk.sectors), disk.sectors, 0, 40 + 2 * Parameters16(total).fatSectors)
    ensures disk.reliable && ClusterSize(TABLE16, total) != 0 && total <= |disk.sectors| && 554 <= |disk.sectors| ==> ok
  {
    hide BootFields16, FirstFat, Blank, ClusterSize, FatSectors, TABLE16, Labelled;
    var size := CalcClusterSize(total, false);
    if size == 0 {
      return false;
    }
    Sizes16(total);
    var p := Parameters16(total);
    var boot := BootSector16(p, name);
    ok := disk.WriteOne(0, boot);
    if !ok {
      return;
    }
    ok := EraseFat(disk, 8, 2 * p.fatSectors, false);
    if !ok {
      return;
    }
    ok := EraseSectors(disk, 8 + 2 * p.fatSectors, 32);
  }

  /** fatfs_create_fsinfo_sector. */
  function FsInfoSector(): Sector {
    Laid(Laid(Laid(Blank(), 0, [0x52, 0x52, 0x61, 0x41]),
      484, [0x72, 0x72, 0x41, 0x61, 0xFF, 0xFF, 0xFF, 0xFF, 0xFF, 0xFF, 0xFF, 0xFF]),
      510, [0x55, 0xAA])
  }

  /** Its signatures, and both hints unknown. */
  lemma FsInfoReads()
    ensures Get32(FsInfoSector(), 0) == 0x4161_5252 && Get32(FsInfoSector(), 484) == 0x6141_7272
    ensures Get32(FsInfoSector(), 488) == 0xFFFF_FFFF && Get32(FsInfoSector(), 492) == 0xFFFF_FFFF
    ensures Signed(FsInfoSector())
    ensures forall k :: 4 <= k < 484 || 496 <= k < 510 ==> FsInfoSector()[k] == 0
  {
    var a := Laid(Blank(), 0, [0x52, 0x52, 0x61, 0x41]);
    var b := Laid(a, 484, [0x72, 0x72, 0x41, 0x61, 0xFF, 0xFF, 0xFF, 0xFF, 0xFF, 0xFF, 0xFF, 0xFF]);
    assert FsInfoSector() == Laid(b, 510, [0x55, 0xAA]);
    hide Laid;
  }

  /** fatfs_format_fat32. */
  method FormatFat32(disk: Disk, total: u32, name: seq<byte>) returns (ok: bool)
    modifies disk
    ensures |disk.sectors| == |old(disk.sectors)|
    ensures ok ==> Formatted32(disk.sectors, Parameters32(total)) && Labelled(disk.sectors[0], 71, name)
    ensures ok ==>
              var p := Parameters32(total);
              SameOutside(old(disk.sectors), disk.sectors, 0, 32 + 2 * p.fatSectors + p.sectorsPerCluster)
    ensures disk.reliable && 4194304 < total <= |disk.sectors| ==> ok
  {
    hide BootFields32, FirstFat, Blank, ClusterSize, FatSectors, TABLE32, FsInfoSector, Labelled;
    Sizes32(total);
    var size := CalcClusterSize(total, true);
    var p := Parameters32(total);
    Fits32(total);
    var boot := BootSector32(p, name);
    ok := disk.WriteOne(0, boot);
    if !ok {
      return;
    }
    ok := disk.WriteOne(1, FsInfoSector());
    if !ok {
      return;
    }
    ok := EraseFat(disk, 32, 2 * p.fatSectors, true);
    if !ok {
      return;
    }
    ok := EraseSectors(disk, 32 + 2 * p.fatSectors, p.sectorsPerCluster);
  }

  /** The disk as the format for its size leaves it. */
  ghost predicate FormattedFor(sectors: seq<Sector>, total: u32) {
    if total <= 4194304 then ClusterSize(TABLE16, total) != 0 && Formatted16(sectors, Parameters16(total))
    else Formatted32(sectors, Parameters32(total))
  }

  /** fatfs_format: FAT16 up to two gigabytes, FAT32 above. */
  method FormatVolume(disk: Disk, total: u32, name: seq<byte>) returns (ok: bool)
    modifies disk
    ensures |disk.sectors| == |old(disk.sectors)|
    ensures ok ==> FormattedFor(disk.sectors, total)
    ensures disk.reliable && total <= |disk.sectors| && 554 <= |disk.sectors| ==> ok
  {
    hide Formatted16, Formatted32, ClusterSize, FatSectors;
    Sizes16(total);
    if total <= 4194304 {
      ok := FormatFat16(disk, total, name);
    } else {
      ok := FormatFat32(disk, total, name);
    }
  }

  /** The FATs and the root directory lie inside the volume. */
  lemma Fits32(total: u32)
    ensures var p := Parameters32(total);
      && 1 <= p.fatSectors <= 524289 && p.sectorsPerCluster <= 64
      && (total > 4194304 ==> 32 + 2 * p.fatSectors + p.sectorsPerCluster <= total)
  {
    Sizes32(total);
    hide ClusterSize, TABLE32;
  }

  // ----- mounting

  datatype MountError = MediaAccess | InvalidSignature | InvalidSectorSize | WrongFilesystem

  datatype MountResult = Mounted(geo: Geometry) | NotMounted(error: MountError)

  /** The partition type codes that make sector 0 a partition table. */
  predicate IsPartition(code: byte) {
    code in {0x0B, 0x06, 0x0C, 0x0E, 0x0F, 0x05} || (code != 0 && code <= 0x06)
  }

  function FatSize(boot: Sector): u32 { if Get16(boot, 22) != 0 then Get16(boot, 22) else Get32(boot, 36) }

  function TotalSectors(boot: Sector): u32 { if Get16(boot, 19) != 0 then Get16(boot, 19) else Get32(boot, 32) }

  /** The cluster count of the mount, in 32-bit arithmetic. */
  function CountOfClusters(boot: Sector): u32
    requires boot[13] != 0
  {
    var data := Wrap(TotalSectors(boot) -
      (Get16(boot, 14) + boot[16] * FatSize(boot) + (Get16(boot, 17) * 32 + 511) / 512));
    Arith.DivBelow(data, 0, boot[13]);
    Arith.DivBelow(data, data + 1, boot[13]);
    assert (data + 1) * boot[13] >= data + 1 by { Arith.MulOrder(1, boot[13], data + 1); }
    data / boot[13]
  }

  /** What the boot sector at lbaBegin says. */
  function ParseBoot(boot: Sector, lbaBegin: u32): MountResult {
    if Get16(boot, 11) != 512 then NotMounted(InvalidSectorSize)
    else if !Signed(boot) then NotMounted(InvalidSignature)
    else if boot[13] == 0 || CountOfClusters(boot) < 4085 then NotMounted(WrongFilesystem)
    else
      var reserved, fats, fatSectors, entries := Get16(boot, 14), boot[16], FatSize(boot), Get16(boot, 17);
      var fat16 := CountOfClusters(boot) < 65525;
      Mounted(Geometry(
        if fat16 then FAT16 else FAT32,
        boot[13],
        lbaBegin,
        Wrap(lbaBegin + reserved),
        fatSectors,
        Wrap(lbaBegin + reserved + fats * fatSectors),
        if fat16 then 0 else Get32(boot, 44),
        Wrap(reserved + fats * fatSectors),
        (entries * 32 + 511) / 512,
        entries,
        Get16(boot, 48),
        CountOfClusters(boot)))
  }

  /** What a disk mounts as. */
  function MountOf(sectors: seq<Sector>): MountResult {
    if sectors == [] then NotMounted(MediaAccess)
    else if !Signed(sectors[0]) then NotMounted(InvalidSignature)
    else
      var lba := if IsPartition(sectors[0][450]) then Get32(sectors[0], 454) else 0;
      if lba >= |sectors| then NotMounted(MediaAccess) else ParseBoot(sectors[lba], lba)
  }

  /** fatfs_init. */
  method Mount(disk: Disk) returns (r: MountResult)
    ensures r == MountOf(disk.sectors) || (!disk.reliable && r == NotMounted(MediaAccess))
  {
    hide ParseBoot, Get32;
    var ok, sector := disk.ReadOne(0);
    if !ok {
      return NotMounted(MediaAccess);
    }
    if sector[510] != 0x55 || sector[511] != 0xAA {
      return NotMounted(InvalidSignature);
    }
    var lbaBegin: u32 := 0;
    if IsPartition(sector[450]) {
      lbaBegin := Get32(sector, 454);
    }
    ok, sector := disk.ReadOne(lbaBegin);
    if !ok {
      return NotMounted(MediaAccess);
    }
    r := ParseBoot(sector, lbaBegin);
  }

  // ----- where the mount finds its fields

  /** The disk has a partition table: sector 0 carries the signature and one of the known type codes. */
  predicate HasTable(s: Sector) {
    && s[510] == 0x55 && s[511] == 0xAA
    && (1 <= s[450] <= 6 || s[450] == 0x0B || s[450] == 0x0C || s[450] == 0x0E || s[450] == 0x0F)
  }

  /**
   * The volume begins at the sector named by bytes 454 to 457 of sector 0 if that has a partition
   * table, and otherwise at sector 0.
   */
  lemma VolumeStart(sectors: seq<Sector>, n: nat)
    requires sectors != [] && sectors[0][510] == 0x55 && sectors[0][511] == 0xAA
    requires var s := sectors[0];
      n == if HasTable(s)
           then s[454] as int + 0x100 * s[455] as int + 0x1_0000 * s[456] as int + 0x100_0000 * s[457] as int
           else 0
    ensures MountOf(sectors) == if n < |sectors| then ParseBoot(sectors[n], n) else NotMounted(MediaAccess)
  {
    hide ParseBoot;
    LowByteFirst(sectors[0], 454);
  }

  lemma Unsigned(sectors: seq<Sector>)
    requires sectors != [] && !(sectors[0][510] == 0x55 && sectors[0][511] == 0xAA)
    ensures MountOf(sectors) == NotMounted(InvalidSignature)
  {
  }

  /**
   * What a boot sector whose numbers fit 32 bits mounts as, without a wrap: the FATs behind the
   * reserved sectors, the data behind the FATs, and the type by the number of clusters.
   */
  lemma BootMounts(b: Sector, n: u32, fat: nat, total: nat, overhead: nat)
    requires Get16(b, 11) == 512 && b[510] == 0x55 && b[511] == 0xAA && b[13] != 0
    requires fat == if Get16(b, 22) != 0 then Get16(b, 22) else Get32(b, 36)
    requires total == if Get16(b, 19) != 0 then Get16(b, 19) else Get32(b, 32)
    requires overhead == Get16(b, 14) + b[16] * fat + (Get16(b, 17) * 32 + 511) / 512
    requires overhead <= total && n + overhead < 0x1_0000_0000
    ensures var count := (total - overhead) / b[13];
      if count < 4085 then ParseBoot(b, n) == NotMounted(WrongFilesystem)
      else
        && ParseBoot(b, n).Mounted?
        && var g := ParseBoot(b, n).geo;
          && g.fatType == (if count < 65525 then FAT16 else FAT32)
          && g.rootCluster == (if count < 65525 then 0 else Get32(b, 44))
          && g.sectorsPerCluster == b[13] && g.clusterCount == count && g.fatSectors == fat
          && g.lbaBegin == n && g.fatBegin == n + Get16(b, 14)
          && g.clusterBegin == n + Get16(b, 14) + b[16] * fat && g.rootFirstSector == Get16(b, 14) + b[16] * fat
          && g.rootSectors == (Get16(b, 17) * 32 + 511) / 512 && g.rootEntryCount == Get16(b, 17)
          && g.fsInfoSector == Get16(b, 48)
  {
    hide Get16, Get32, CountOfClusters, FatSize, ParseBoot;
    FieldsRead(b, fat, total, overhead);
    ParsedFields(b, n, b[16] * fat);
  }

  /** x sectors of FAT. */
  lemma ParsedFields(b: Sector, n: u32, x: nat)
    requires Get16(b, 11) == 512 && b[510] == 0x55 && b[511] == 0xAA && b[13] != 0
    requires x == b[16] * FatSize(b) && n + Get16(b, 14) + x < 0x1_0000_0000
    ensures var count := CountOfClusters(b);
      if count < 4085 then ParseBoot(b, n) == NotMounted(WrongFilesystem)
      else
        ParseBoot(b, n) == Mounted(Geometry(if count < 65525 then FAT16 else FAT32, b[13], n, n + Get16(b, 14),
          FatSize(b), n + Get16(b, 14) + x, if count < 65525 then 0 else Get32(b, 44), Get16(b, 14) + x,
          (Get16(b, 17) * 32 + 511) / 512, Get16(b, 17), Get16(b, 48), count))
  {
    hide Get16, Get32, Wrap, CountOfClusters, FatSize;
    Geometry.Unwrapped(n + Get16(b, 14));
    Geometry.Unwrapped(n + Get16(b, 14) + x);
    Geometry.Unwrapped(Get16(b, 14) + x);
  }

  lemma FieldsRead(b: Sector, fat: nat, total: nat, overhead: nat)
    requires fat == if Get16(b, 22) != 0 then Get16(b, 22) else Get32(b, 36)
    requires total == if Get16(b, 19) != 0 then Get16(b, 19) else Get32(b, 32)
    requires overhead == Get16(b, 14) + b[16] * fat + (Get16(b, 17) * 32 + 511) / 512
    requires b[13] != 0 && overhead <= total < 0x1_0000_0000
    ensures FatSize(b) == fat && CountOfClusters(b) == (total - overhead) / b[13]
  {
    hide Get16, Get32;
  }

  /** What it does not mount, whatever the numbers. */
  lemma BootRefused(b: Sector, n: u32)
    ensures Get16(b, 11) != 512 ==> ParseBoot(b, n) == NotMounted(InvalidSectorSize)
    ensures Get16(b, 11) == 512 && !(b[510] == 0x55 && b[511] == 0xAA) ==>
              ParseBoot(b, n) == NotMounted(InvalidSignature)
    ensures Get16(b, 11) == 512 && b[510] == 0x55 && b[511] == 0xAA && b[13] == 0 ==>
              ParseBoot(b, n) == NotMounted(WrongFilesystem)
  {
  }

  // ----- formatting, then mounting

  /** The data clusters of a volume, before the type is decided. */
  function Count(total: u32, overhead: nat, sectorsPerCluster: nat): int
    requires sectorsPerCluster > 0
  {
    Wrap(total - overhead) / sectorsPerCluster
  }

  /** The data clusters fit behind the overhead, and the FAT has an entry for each and two more. */
  lemma CountFits(total: u32, overhead: nat, w: nat, fat32: bool)
    requires w > 0 && overhead <= total
    ensures overhead + Count(total, overhead, w) * w <= total
    ensures 0 <= Count(total, overhead, w)
    ensures Count(total, overhead, w) + 2 <= FatSectors(total, w, fat32) * if fat32 then 128 else 256
  {
    var n := Count(total, overhead, w);
    Arith.CellOf(total - overhead, w);
    Arith.DivBelow(total - overhead, 0, w);
    Arith.CellOf(total, w);
    Arith.DivBelow(total - overhead, total / w + 1, w);
    assert (total / w + 1) * w == total / w * w + w;
    assert n <= total / w;
  }

  /** Which FAT16-formatted volumes count as FAT16: the smallest clusters. */
  lemma Count16Low(total: u32)
    requires total <= 32680
    ensures var w := ClusterSize(TABLE16, total);
      0 < w <= 64 && (4085 <= Count(total, 40 + 2 * FatSectors(total, w, false), w) < 65525 <==> 8244 <= total)
  {
    Sizes16(total);
    hide ClusterSize, TABLE16;
  }

  /** Middle clusters. */
  lemma Count16Middle(total: u32)
    requires 32680 < total <= 524288
    ensures var w := ClusterSize(TABLE16, total);
      0 < w <= 64 && 4085 <= Count(total, 40 + 2 * FatSectors(total, w, false), w) < 65525
  {
    Sizes16(total);
    hide ClusterSize, TABLE16;
    if total <= 262144 {
    } else {
    }
  }

  /** Large clusters. */
  lemma Count16High(total: u32)
    requires 524288 < total <= 4194304
    ensures var w := ClusterSize(TABLE16, total);
      0 < w <= 64 && (4085 <= Count(total, 40 + 2 * FatSectors(total, w, false), w) < 65525 <==> total <= 4194151)
  {
    Sizes16(total);
    hide ClusterSize, TABLE16;
    if total <= 1048576 {
    } else if total <= 2097152 {
    } else {
    }
  }

  /** The largest clusters, for sizes that fatfs_format would format as FAT32. */
  lemma Count16Top(total: u32)
    requires 4194304 < total <= 8388608
    ensures var w := ClusterSize(TABLE16, total);
      w == 128 && (4085 <= Count(total, 40 + 2 * FatSectors(total, w, false), w) < 65525 <==> total <= 8387751)
  {
    Sizes16(total);
    hide ClusterSize, TABLE16;
  }

  /** The sizes that count as FAT16 when they are formatted as FAT16. */
  predicate Fat16Size(total: u32) { 8244 <= total <= 4194151 || 4194305 <= total <= 8387751 }

  lemma Count16(total: u32)
    requires ClusterSize(TABLE16, total) != 0
    ensures var w := ClusterSize(TABLE16, total);
      && 0 < w <= 128
      && (4085 <= Count(total, 40 + 2 * FatSectors(total, w, false), w) < 65525 <==> Fat16Size(total))
  {
    hide ClusterSize, FatSectors, Count, TABLE16;
    Sizes16(total);
    if total <= 32680 {
      Count16Low(total);
    } else if total <= 524288 {
      Count16Middle(total);
    } else if total <= 4194304 {
      Count16High(total);
    } else {
      Count16Top(total);
    }
  }

  /** FAT32-formatted volumes of FAT32 size always count as FAT32. */
  lemma Count32(total: u32)
    requires total > 4194304
    ensures var w := ClusterSize(TABLE32, total);
      8 <= w <= 64 && 65525 <= Count(total, 32 + 2 * FatSectors(total, w, true), w)
      && FatSectors(total, w, true) * 128 < 0x0FFF_FFF8 && 32 + 2 * FatSectors(total, w, true) <= total
  {
    Sizes32(total);
    hide ClusterSize, TABLE32;
    if total <= 16777216 {
    } else if total <= 33554432 {
    } else if total <= 67108864 {
    } else {
    }
  }

  lemma Fits16(total: u32)
    requires Fat16Size(total)
    ensures var w := ClusterSize(TABLE16, total);
      0 < w <= 128 &&
      var n := Count(total, 40 + 2 * FatSectors(total, w, false), w);
      && 4085 <= n < 65525 && n + 2 <= FatSectors(total, w, false) * 256
      && 40 + 2 * FatSectors(total, w, false) + n * w <= total
  {
    hide ClusterSize, FatSectors, Count;
    Sizes16(total);
    Count16(total);
    var w := ClusterSize(TABLE16, total);
    CountFits(total, 40 + 2 * FatSectors(total, w, false), w, false);
  }

  /** The geometry of a FAT32-formatted volume. */
  function Geometry32(total: u32): Geometry
    requires total > 4194304
  {
    var p := Parameters32(total);
    Fits32(total);
    Count32(total);
    Geometry(FAT32, p.sectorsPerCluster, 0, 32, p.fatSectors, 32 + 2 * p.fatSectors, 2, 32 + 2 * p.fatSectors, 0, 0, 1,
      Count(total, 32 + 2 * p.fatSectors, p.sectorsPerCluster))
  }

  lemma Geometry32Ok(total: u32)
    requires total > 4194304
    ensures var g := Geometry32(total);
      g.Ok() && g.clusterBegin + Span(g) <= total && g.clusterCount >= 65525
  {
    hide ClusterSize, FatSectors, Count;
    var p := Parameters32(total);
    Fits32(total);
    Count32(total);
    CountFits(total, 32 + 2 * p.fatSectors, p.sectorsPerCluster, true);
  }

  /**
   * Every volume formatted as FAT32 has FAT entries behind its last data cluster.  Once the
   * data clusters are used up the driver hands out the first of these, whose sectors lie
   * behind the data.
   */
  lemma FullVolume(total: u32, T: seq<u32>)
    requires total > 4194304 && |T| == Geometry32(total).EntryCount()
    requires forall c :: 2 <= c < |T| ==> (IsFree(FAT32, T, c) <==> c >= Geometry32(total).Limit())
    ensures var g := Geometry32(total);
      g.Limit() < |T| && Free(g, T) != [] && Free(g, T)[0] == g.Limit() && g.Rel(g.Limit(), 0) == Span(g)
  {
    hide FreeIn, FatSectors, Count, ClusterSize;
    var g := Geometry32(total);
    SparesExist(total);
    FreeInFirst(FAT32, T, 2, g.Limit(), |T|);
  }

  lemma SparesExist(total: u32)
    requires total > 4194304
    ensures Geometry32(total).Limit() < Geometry32(total).EntryCount() < 0x1000_0000
  {
    hide ClusterSize, FatSectors, Count;
    var p := Parameters32(total);
    var w, overhead := p.sectorsPerCluster, 32 + 2 * p.fatSectors;
    Count32(total);
    Sizes32(total);
    Fits32(total);
    CountFits(total, overhead, w, true);
    assert w <= 64 <= overhead <= total;
    CountFits(total, overhead - w, w, true);
    CountMore(total, overhead, w);
  }

  /** A cluster less of overhead is a cluster more of data. */
  lemma CountMore(total: u32, overhead: nat, w: nat)
    requires 0 < w <= overhead <= total
    ensures Count(total, overhead - w, w) == Count(total, overhead, w) + 1
  {
    Arith.CellMore(total - overhead, w);
  }

  /** Every volume formatted as FAT32 mounts as FAT32, with the layout it was formatted with. */
  lemma Mounts32(sectors: seq<Sector>, total: u32)
    requires total > 4194304 && Formatted32(sectors, Parameters32(total))
    ensures MountOf(sectors) == Mounted(Geometry32(total)) && Geometry32(total).Ok()
    ensures Geometry32(total).clusterBegin + Span(Geometry32(total)) <= total
  {
    hide ClusterSize, FatSectors, Blank, FirstFat, Zeroed, Count, CountOfClusters, Geometry.Ok, Span;
    var p := Parameters32(total);
    Fits32(total);
    Count32(total);
    Geometry32Ok(total);
    CountBoot32(sectors[0], p);
  }

  lemma CountBoot32(boot: Sector, p: Parameters)
    requires BootFields32(boot, p) && p.rootEntries == 0 && p.reserved == 32 && p.fats == 2 && p.sectorsPerCluster > 0
    ensures CountOfClusters(boot) == Count(p.total, 32 + 2 * p.fatSectors, p.sectorsPerCluster)
  {
  }

  lemma CountBoot16(boot: Sector, p: Parameters)
    requires BootFields16(boot, p) && p.rootEntries == 512 && p.reserved == 8 && p.fats == 2 && p.sectorsPerCluster > 0
    requires p.fatSectors > 0
    ensures CountOfClusters(boot) == Count(p.total, 40 + 2 * p.fatSectors, p.sectorsPerCluster)
  {
  }

  /** The geometry of a FAT16-formatted volume; the FSINFO field is not used by FAT16. */
  function Geometry16(total: u32, fsInfo: u16): Geometry
    requires Fat16Size(total)
  {
    Fits16(total);
    var p := Parameters16(total);
    Geometry(FAT16, p.sectorsPerCluster, 0, 8, p.fatSectors, 8 + 2 * p.fatSectors, 0, 8 + 2 * p.fatSectors, 32, 512,
      fsInfo,
      Count(total, 40 + 2 * p.fatSectors, p.sectorsPerCluster))
  }

  /**
   * A volume formatted as FAT16 mounts as FAT16 exactly if its size is in the range, and then with
   * the layout it was formatted with.
   */
  lemma Mounts16(sectors: seq<Sector>, total: u32)
    requires ClusterSize(TABLE16, total) != 0 && Formatted16(sectors, Parameters16(total))
    ensures MountOf(sectors).Mounted? && MountOf(sectors).geo.fatType == FAT16 <==> Fat16Size(total)
    ensures Fat16Size(total) ==>
      var g := Geometry16(total, Get16(sectors[0], 48));
      MountOf(sectors) == Mounted(g) && g.Ok() && g.clusterBegin + Span(g) <= total
  {
    hide ClusterSize, FatSectors, Blank, FirstFat, Zeroed, Count, CountOfClusters;
    var p := Parameters16(total);
    Sizes16(total);
    Count16(total);
    if Fat16Size(total) {
      Fits16(total);
    }
    CountBoot16(sectors[0], p);
  }

  /** What fatfs_format writes mounts as the type it was formatted as exactly for these sizes. */
  lemma MountsAsFormatted(sectors: seq<Sector>, total: u32)
    requires FormattedFor(sectors, total)
    ensures MountOf(sectors).Mounted? && MountOf(sectors).geo.fatType == (if total <= 4194304 then FAT16 else FAT32)
       <==> 8244 <= total <= 4194151 || 4194304 < total
  {
    hide Formatted16, Formatted32, ClusterSize, FatSectors, MountOf, Geometry.Ok, Count;
    if total <= 4194304 {
      Mounts16(sectors, total);
    } else {
      Mounts32(sectors, total);
    }
  }

  // ----- the fresh volume

  lemma FirstWords(g: Geometry, m: nat)
    requires g.fatType == FAT32 && m < 128
    ensures Word(g, FirstFat(true), m) ==
            if m == 0 then 0x0FFF_FFF8 else if m == 1 then 0xFFFF_FFFF else if m == 2 then 0x0FFF_FFFF else 0
    ensures Word(g, Blank(), m) == 0
  {
    var a := Put32(Blank(), 0, 0x0FFF_FFF8);
    var b := Put32(a, 4, 0xFFFF_FFFF);
    assert Get32(Blank(), m * 4) == 0;
    Put32Get32(Blank(), 0, 0x0FFF_FFF8, m * 4);
    Put32Get32(a, 4, 0xFFFF_FFFF, m * 4);
    Put32Get32(b, 8, 0x0FFF_FFFF, m * 4);
  }

  /** The FAT that fatfs_erase_fat writes: the reserved entries, the root directory's end, and nothing else. */
  lemma FreshFat(g: Geometry, fat: seq<Sector>)
    requires g.fatType == FAT32 && g.rootCluster == 2 && |fat| == g.fatSectors >= 1 && g.EntryCount() < 0x1000_0000
    requires fat[0] == FirstFat(true) && forall k :: 1 <= k < |fat| ==> fat[k] == Blank()
    ensures FreshTable(g, Decode(g, fat))
  {
    hide Word, Blank, FirstFat, Entry;
    var T := Decode(g, fat);
    assert |T| == g.fatSectors * 128;
    forall c: nat | c < |T|
      ensures T[c] == if c == 0 then 0x0FFF_FFF8 else if c == 1 then 0xFFFF_FFFF else if c == 2 then 0x0FFF_FFFF else 0
    {
      EntryAt(g, fat, c / 128, c % 128);
      FirstWords(g, c % 128);
    }
  }

  /** The root directory's cluster is blank. */
  lemma FreshRoot(g: Geometry, data: seq<Sector>)
    requires g.fatType == FAT32 && g.sectorsPerCluster >= 1 && g.sectorsPerCluster <= |data|
    requires forall k :: 0 <= k < g.sectorsPerCluster ==> data[k] == Blank()
    ensures Bare(DirSlots(g, data, [2]))
  {
    var addrs := Addrs(g, [2]);
    assert |addrs| == 1 * g.sectorsPerCluster == g.sectorsPerCluster;
    forall s: nat | s < |addrs| ensures addrs[s] == s {
      var i, k := AddrsSplit(g, [2], s);
      assert i == 0;
    }
    hide Addrs, Blank;
    BlankIsBare(Pick(data, addrs));
  }

  /** What the sectors of a disk store under a layout. */
  ghost function OnSectors(g: Geometry, sectors: seq<Sector>): Volume
    requires g.Ok() && g.clusterBegin <= |sectors|
  {
    Volume(Decode(g, sectors[g.fatBegin..g.fatBegin + g.fatSectors]), sectors[g.clusterBegin..])
  }

  /** A FAT32 volume whose FAT and root directory are as after formatting is in order, and empty. */
  lemma BlankVolume(g: Geometry, sectors: seq<Sector>)
    requires g.Ok() && g.fatType == FAT32 && g.rootCluster == 2 && g.clusterBegin + Span(g) <= |sectors|
    requires sectors[g.fatBegin] == FirstFat(true)
    requires Zeroed(sectors, g.fatBegin + 1, g.fatBegin + g.fatSectors)
    requires g.clusterBegin + g.sectorsPerCluster <= |sectors|
    requires Zeroed(sectors, g.clusterBegin, g.clusterBegin + g.sectorsPerCluster)
    ensures Inv(g, OnSectors(g, sectors), FreshTree())
  {
    hide Blank, FirstFat, Span, Decode, Bare, DirSlots, Inv;
    assert g.sectorsPerCluster >= 1 && g.fatSectors >= 1 && g.EntryCount() < 0x1000_0000;
    hide Geometry.Ok;
    var fat, data := sectors[g.fatBegin..g.fatBegin + g.fatSectors], sectors[g.clusterBegin..];
    forall k | 1 <= k < |fat| ensures fat[k] == Blank() {
      assert fat[k] == sectors[g.fatBegin + k];
    }
    FreshFat(g, fat);
    forall k | 0 <= k < g.sectorsPerCluster ensures data[k] == Blank() {
      assert data[k] == sectors[g.clusterBegin + k];
    }
    FreshRoot(g, data);
    FreshInv(g, Volume(Decode(g, fat), data));
  }

  /** A volume formatted as FAT32 satisfies the invariant, with an empty root directory. */
  lemma FreshVolume(sectors: seq<Sector>, total: u32)
    requires total > 4194304 && Formatted32(sectors, Parameters32(total)) && total <= |sectors|
    ensures var g := Geometry32(total);
      && g.Ok() && g.clusterBegin + Span(g) <= |sectors|
      && Inv(g, OnSectors(g, sectors), FreshTree())
  {
    hide ClusterSize, FatSectors, Blank, FirstFat, Count, Span, Inv, Geometry.Ok, BootFields32, FsInfoSector, OnSectors;
    Geometry32Ok(total);
    BlankVolume(Geometry32(total), sectors);
  }

  /** Whatever run follows the formatting, the volume stays in order. */
  lemma EveryRun(sectors: seq<Sector>, total: u32, w: Volume, t: Tree)
    requires total > 4194304 && Formatted32(sectors, Parameters32(total)) && total <= |sectors|
    requires var g := Geometry32(total);
      g.Ok() && g.clusterBegin <= |sectors| && Reaches(g, OnSectors(g, sectors), FreshTree(), w, t)
    ensures Inv(Geometry32(total), w, t)
  {
    hide Formatted32, OnSectors, Inv, Span, Geometry.Ok, Reaches, Geometry32, Parameters32;
    FreshVolume(sectors, total);
    ReachesKeeps(Geometry32(total), OnSectors(Geometry32(total), sectors), FreshTree(), w, t);
  }

  lemma FirstWords16(g: Geometry, m: nat)
    requires g.fatType == FAT16 && m < 256
    ensures Word(g, FirstFat(false), m) == if m == 0 then 0xFFF8 else if m == 1 then 0xFFFF else 0
    ensures Word(g, Blank(), m) == 0
  {
    var a := Put16(Blank(), 0, 0xFFF8);
    assert Get16(Blank(), m * 2) == 0;
    Put16Get16(Blank(), 0, 0xFFF8, m * 2);
    Put16Get16(a, 2, 0xFFFF, m * 2);
  }

  /** The FAT16 table of a fresh volume: no chain, and every entry from cluster 2 up free. */
  lemma FreshFat16(g: Geometry, fat: seq<Sector>)
    requires g.fatType == FAT16 && |fat| == g.fatSectors >= 1 && g.EntryCount() < 0x1000_0000
    requires fat[0] == FirstFat(false) && forall k :: 1 <= k < |fat| ==> fat[k] == Blank()
    ensures Owned(g, Decode(g, fat), map[])
  {
    hide Word, Blank, FirstFat, Entry;
    var T := Decode(g, fat);
    assert |T| == g.fatSectors * 256;
    forall c: nat | c < |T| ensures T[c] == if c == 0 then 0xFFF8 else if c == 1 then 0xFFFF else 0 {
      EntryAt(g, fat, c / 256, c % 256);
      FirstWords16(g, c % 256);
    }
  }

  /** A volume formatted as FAT16 starts with no chain and an empty root directory. */
  lemma FreshVolume16(sectors: seq<Sector>, total: u32)
    requires Fat16Size(total) && ClusterSize(TABLE16, total) != 0 && Formatted16(sectors, Parameters16(total))
    requires total <= |sectors|
    ensures var g := Geometry16(total, Get16(sectors[0], 48));
      && g.clusterBegin + 32 <= |sectors|
      && Owned(g, Decode(g, sectors[g.fatBegin..g.fatBegin + g.fatSectors]), map[])
      && Bare(DirSlots(g, sectors[g.clusterBegin..], []))
  {
    hide ClusterSize, FatSectors, Blank, FirstFat, Count, Decode, Bare, Owned, DirSlots, Slots, Geometry16;
    var g := Geometry16(total, Get16(sectors[0], 48));
    Geometry16Shape(total, Get16(sectors[0], 48));
    var fat, data := sectors[g.fatBegin..g.fatBegin + g.fatSectors], sectors[g.clusterBegin..];
    forall k | 1 <= k < |fat| ensures fat[k] == Blank() {
      assert fat[k] == sectors[8 + k];
    }
    FreshFat16(g, fat);
    FreshRoot16(g, sectors);
  }

  lemma Geometry16Shape(total: u32, fsInfo: u16)
    requires Fat16Size(total) && ClusterSize(TABLE16, total) != 0
    ensures var g, n := Geometry16(total, fsInfo), Parameters16(total).fatSectors;
      && g.fatType == FAT16 && g.fatBegin == 8 && g.fatSectors == n >= 1 && g.clusterBegin == 8 + 2 * n
      && g.rootSectors == 32
      && g.EntryCount() < 0x1000_0000
  {
    hide ClusterSize, FatSectors, Count;
    Sizes16(total);
    Fits16(total);
  }

  lemma FreshRoot16(g: Geometry, sectors: seq<Sector>)
    requires g.fatType == FAT16 && g.rootSectors == 32 && Zeroed(sectors, g.clusterBegin, g.clusterBegin + 32)
    ensures Bare(DirSlots(g, sectors[g.clusterBegin..], []))
  {
    hide Blank, Bare;
    var data := sectors[g.clusterBegin..];
    var root := Pick(data, DirAddrs(g, []));
    forall i | 0 <= i < |root| ensures root[i] == Blank() {
      assert data[i] == sectors[g.clusterBegin + i];
    }
    BlankIsBare(root);
  }

  // ----- volumes in a partition

  /** The same layout n sectors further on. */
  function Shifted(g: Geometry, n: nat): Geometry
    requires g.lbaBegin + n < 0x1_0000_0000 && g.fatBegin + n < 0x1_0000_0000 && g.clusterBegin + n < 0x1_0000_0000
  {
    g.(lbaBegin := g.lbaBegin + n, fatBegin := g.fatBegin + n, clusterBegin := g.clusterBegin + n)
  }

  lemma ShiftedOk(g: Geometry, n: nat, total: nat)
    requires g.Ok() && g.lbaBegin == 0 && g.clusterBegin + Span(g) <= total && n + total < 0x1_0000_0000
    requires g.fatType == FAT32 ==> g.fsInfoSector < g.fatBegin
    ensures g.fatBegin + n < 0x1_0000_0000 && g.clusterBegin + n < 0x1_0000_0000
    ensures Shifted(g, n).Ok() && Span(Shifted(g, n)) == Span(g)
  {
    ShiftedFits(g, n, total);
    hide Geometry.Ok, Span;
    SameRoot(g, n);
    ShiftedInfo(g, n);
    AlikeOk(g, Shifted(g, n), n);
  }

  lemma ShiftedFits(g: Geometry, n: nat, total: nat)
    requires g.Ok() && g.lbaBegin == 0 && g.clusterBegin + Span(g) <= total && n + total < 0x1_0000_0000
    requires g.fatType == FAT32 ==> g.fsInfoSector < g.fatBegin
    ensures g.fatBegin + n < 0x1_0000_0000 && g.clusterBegin + n + Span(g) < 0x1_0000_0000
    ensures 0 <= g.RootSpan() <= Span(g)
    ensures g.fatType == FAT32 ==> n + g.fsInfoSector < 0x1_0000_0000
  {
    hide Wrap, Geometry.EntryCount, Geometry.RootSpan;
  }

  lemma ShiftedInfo(g: Geometry, n: nat)
    requires g.lbaBegin == 0 && g.fatBegin + n < 0x1_0000_0000 && g.clusterBegin + n < 0x1_0000_0000
    requires g.fatType == FAT32 ==> g.fsInfoSector + n < 0x1_0000_0000
    ensures g.fatType == FAT32 ==> Shifted(g, n).FsInfoLba() == n + g.fsInfoSector
  {
    if g.fatType == FAT32 {
      Geometry.Unwrapped(n + g.fsInfoSector);
    }
  }

  /** Layouts of the same parts, the later one within 32 bits, are in order together. */
  lemma AlikeOk(g: Geometry, h: Geometry, n: nat)
    requires g.Ok() && g.lbaBegin == 0 && g.fatBegin + n < 0x1_0000_0000 && g.clusterBegin + n < 0x1_0000_0000
    requires h == Shifted(g, n) && h.Limit() == g.Limit() && h.RootSpan() == g.RootSpan()
    requires h.EntryCount() == g.EntryCount() && Span(h) == Span(g) && h.clusterBegin + Span(h) < 0x1_0000_0000
    requires h.fatType == FAT32 ==> h.FsInfoLba() == n + g.fsInfoSector && g.fsInfoSector < g.fatBegin
    requires 0 <= g.RootSpan() <= Span(g)
    ensures h.Ok()
  {
    hide Geometry.Limit, Geometry.EntryCount, Geometry.RootSpan, Geometry.FsInfoLba;
  }

  lemma SameRoot(g: Geometry, n: nat)
    requires g.lbaBegin + n < 0x1_0000_0000 && g.fatBegin + n < 0x1_0000_0000 && g.clusterBegin + n < 0x1_0000_0000
    ensures Shifted(g, n).RootSpan() == g.RootSpan() && Shifted(g, n).EntryCount() == g.EntryCount()
    ensures Shifted(g, n).Limit() == g.Limit() && Span(Shifted(g, n)) == Span(g)
  {
  }

  lemma BootMounts32(boot: Sector, n: u32, total: u32)
    requires total > 4194304 && n + total < 0x1_0000_0000 && BootFields32(boot, Parameters32(total))
    ensures Geometry32(total).clusterBegin + n < 0x1_0000_0000
    ensures ParseBoot(boot, n) == Mounted(Shifted(Geometry32(total), n))
  {
    hide ClusterSize, FatSectors, Get16, Get32, ParseBoot, Geometry.Ok, Span;
    var p := Parameters32(total);
    Fits32(total);
    Count32(total);
    Geometry32Ok(total);
    var overhead := 32 + 2 * p.fatSectors;
    BootMounts(boot, n, p.fatSectors, total, overhead);
    Geometry.Unwrapped(total - overhead);
  }

  lemma BootMounts16(boot: Sector, n: u32, total: u32)
    requires Fat16Size(total) && n + total < 0x1_0000_0000
    requires ClusterSize(TABLE16, total) != 0 && BootFields16(boot, Parameters16(total))
    ensures Geometry16(total, Get16(boot, 48)).clusterBegin + n < 0x1_0000_0000
    ensures ParseBoot(boot, n) == Mounted(Shifted(Geometry16(total, Get16(boot, 48)), n))
  {
    hide ClusterSize, FatSectors, Get16, Get32, ParseBoot, Geometry.Ok, Span;
    var p := Parameters16(total);
    Fits16(total);
    Sizes16(total);
    Count16(total);
    var overhead := 40 + 2 * p.fatSectors;
    BootMounts(boot, n, p.fatSectors, total, overhead);
    Geometry.Unwrapped(total - overhead);
  }

  lemma ShiftedZeros(sectors: seq<Sector>, n: nat, a: nat, b: nat)
    requires n <= |sectors| && Zeroed(sectors[n..], a, b)
    ensures Zeroed(sectors, n + a, n + b)
  {
    hide Blank;
    forall k | n + a <= k < n + b ensures sectors[k] == Blank() {
      assert sectors[k] == sectors[n..][k - n];
    }
  }

  lemma ShiftedBlank(sectors: seq<Sector>, n: u32, total: u32)
    requires n + total <= |sectors| < 0x1_0000_0000 && total > 4194304
    requires Formatted32(sectors[n..], Parameters32(total))
    ensures var g := Geometry32(total);
      && g.clusterBegin + n < 0x1_0000_0000 && Shifted(g, n).Ok()
      && Shifted(g, n).clusterBegin + Span(g) <= n + total
      && Inv(Shifted(g, n), OnSectors(Shifted(g, n), sectors), FreshTree())
  {
    hide ClusterSize, FatSectors, Blank, FirstFat, Count, Span, Inv, Geometry.Ok, BootFields32, FsInfoSector, OnSectors;
    hide Zeroed;
    var g := Geometry32(total);
    Geometry32Ok(total);
    ShiftedOk(g, n, total);
    var p := Parameters32(total);
    assert sectors[n..][32] == sectors[n + 32];
    ShiftedZeros(sectors, n, 33, 32 + 2 * p.fatSectors);
    ShiftedZeros(sectors, n, 32 + 2 * p.fatSectors, 32 + 2 * p.fatSectors + p.sectorsPerCluster);
    ZeroedPart(sectors, n + 33, n + 32 + 2 * p.fatSectors, n + 32 + p.fatSectors);
    BlankVolume(Shifted(g, n), sectors);
  }

  lemma ZeroedPart(sectors: seq<Sector>, a: nat, b: nat, c: nat)
    requires Zeroed(sectors, a, b) && c <= b
    ensures Zeroed(sectors, a, c)
  {
  }

  /**
   * A disk with a partition table whose first partition begins at sector n, low byte first in bytes 454
   * to 457, and is formatted as FAT32: it mounts with the layout of the format, n sectors further on,
   * and is in order and empty.
   */
  lemma MountsPartition32(sectors: seq<Sector>, n: u32, total: u32)
    requires sectors != [] && HasTable(sectors[0]) && n + total <= |sectors| < 0x1_0000_0000 && total > 4194304
    requires var s, m: int := sectors[0], n;
      && s[454] == m % 0x100 && s[455] == m / 0x100 % 0x100
      && s[456] == m / 0x1_0000 % 0x100 && s[457] == m / 0x100_0000
    requires Formatted32(sectors[n..], Parameters32(total))
    ensures var g := Geometry32(total);
      && g.clusterBegin + n < 0x1_0000_0000 && MountOf(sectors) == Mounted(Shifted(g, n)) && Shifted(g, n).Ok()
      && Shifted(g, n).clusterBegin + Span(g) <= n + total
      && Inv(Shifted(g, n), OnSectors(Shifted(g, n), sectors), FreshTree())
  {
    hide ClusterSize, FatSectors, Blank, FirstFat, Count, CountOfClusters, Geometry.Ok, Span, Inv, OnSectors, Get16;
    hide Get32, ParseBoot, FsInfoSector, MountOf;
    Bytes32(n);
    VolumeStart(sectors, n);
    assert sectors[n..][0] == sectors[n];
    Geometry32Ok(total);
    BootMounts32(sectors[n], n, total);
    ShiftedBlank(sectors, n, total);
  }

  /** The same of FAT16, for the sizes that mount as FAT16. */
  lemma MountsPartition16(sectors: seq<Sector>, n: u32, total: u32)
    requires sectors != [] && HasTable(sectors[0]) && n + total <= |sectors| < 0x1_0000_0000 && Fat16Size(total)
    requires var s, m: int := sectors[0], n;
      && s[454] == m % 0x100 && s[455] == m / 0x100 % 0x100
      && s[456] == m / 0x1_0000 % 0x100 && s[457] == m / 0x100_0000
    requires ClusterSize(TABLE16, total) != 0 && Formatted16(sectors[n..], Parameters16(total))
    ensures var g := Geometry16(total, Get16(sectors[n], 48));
      && g.clusterBegin + n < 0x1_0000_0000 && MountOf(sectors) == Mounted(Shifted(g, n)) && Shifted(g, n).Ok()
      && Shifted(g, n).clusterBegin + Span(g) <= n + total
  {
    hide ClusterSize, FatSectors, Blank, FirstFat, Count, CountOfClusters, Geometry.Ok, Span, Get16, Zeroed;
    hide Get32, ParseBoot, MountOf, BootFields16;
    Bytes32(n);
    VolumeStart(sectors, n);
    assert sectors[n..][0] == sectors[n];
    Mounts16(sectors[n..], total);
    BootMounts16(sectors[n], n, total);
    ShiftedOk(Geometry16(total, Get16(sectors[n], 48)), n, total);
  }

  /** Format a disk of FAT32 size, mount it, and set the driver up: a file system in order, empty but for its root. */
  method FreshFileSystem(disk: Disk, total: u32, name: seq<byte>, buffers: nat) returns (fs: FatFs)
    requires disk.reliable && 4194304 < total <= |disk.sectors| < 0x1_0000_0000 && buffers >= 1
    modifies disk
    ensures fresh(fs) && fresh(fs.table) && |disk.sectors| == |old(disk.sectors)|
    ensures fs.disk == disk && fs.geo == Geometry32(total) && Ready(fs, FreshTree())
    ensures Formatted32(disk.sectors, Parameters32(total)) && fs.geo.Ok() && fs.geo.clusterBegin <= |disk.sectors|
    ensures fs.State() == OnSectors(fs.geo, disk.sectors)
  {
    hide ClusterSize, FatSectors, Formatted32, Decode, Inv, Span, Geometry.Ok, Geometry32;
    var ok := FormatFat32(disk, total, name);
    FreshVolume(disk.sectors, total);
    Mounts32(disk.sectors, total);
    var r := Mount(disk);
    var table := new FatTable(disk, r.geo, buffers);
    fs := new FatFs(table);
  }
}
