/** Where the parts of a FAT volume lie, and how one FAT entry is encoded. */
module Layout {
  import opened Words
  import Arith

  const LAST_CLUSTER: u32 := 0xFFFF_FFFF
  const INVALID_CLUSTER: u32 := 0xFFFF_FFFF

  datatype FatType = FAT16 | FAT32

  /** The C arithmetic on uint32. */
  function Wrap(x: int): u32 { x % 0x1_0000_0000 }

  /** The geometry fields of struct fatfs; clusterCount is the count_of_clusters of the mount. */
  datatype Geometry = Geometry(
    fatType: FatType,
    sectorsPerCluster: nat,
    lbaBegin: u32,
    fatBegin: u32,
    fatSectors: u32,
    clusterBegin: u32,
    rootCluster: u32,
    rootFirstSector: u32,
    rootSectors: u32,
    rootEntryCount: u16,
    fsInfoSector: u16,
    clusterCount: u32)
  {
    function EntriesPerSector(): nat { if fatType == FAT16 then 256 else 128 }

    function EntryCount(): nat { fatSectors * EntriesPerSector() }

    /** Clusters 2 .. Limit()-1 have data sectors. */
    function Limit(): nat { clusterCount + 2 }

    function FsInfoLba(): u32 { Wrap(lbaBegin + fsInfoSector) }

    predicate InFat(lba: int) { fatBegin <= lba < fatBegin + fatSectors }

    /** The sectors that pass through the FAT buffers. */
    predicate Buffered(lba: int) { InFat(lba) || (fatType == FAT32 && lba == FsInfoLba()) }

    /** Sectors between clusterBegin and cluster 2: the FAT16 root directory. */
    function RootSpan(): nat { if fatType == FAT16 then rootEntryCount * 32 / SECTOR_SIZE else 0 }

    /** fatfs_lba_of_cluster. */
    function LbaOfCluster(cluster: u32): u32 {
      if fatType == FAT16
      then Wrap(clusterBegin + rootEntryCount * 32 / SECTOR_SIZE + Wrap(cluster - 2) * sectorsPerCluster)
      else Wrap(clusterBegin + Wrap(cluster - 2) * sectorsPerCluster)
    }

    /** Sector s of a cluster, counted from clusterBegin. */
    function Rel(cluster: int, s: int): int {
      RootSpan() + (cluster - 2) * sectorsPerCluster + s
    }

    /** A layout on which no address computation wraps and no two regions meet. */
    ghost predicate Ok() {
      && 1 <= sectorsPerCluster < 0x100
      && 1 <= fatSectors
      && fatBegin + fatSectors <= clusterBegin
      && (fatType == FAT32 ==> FsInfoLba() == lbaBegin + fsInfoSector < fatBegin)
      && (fatType == FAT16 ==> rootCluster == 0 && rootEntryCount % 16 == 0 && rootSectors == rootEntryCount / 16)
      && (fatType == FAT32 ==> 2 <= rootCluster < Limit())
      && lbaBegin + rootFirstSector == clusterBegin
      && Limit() <= EntryCount()
      && Limit() <= (if fatType == FAT16 then 0xFFF8 else 0x0FFF_FFF8)
      && EntryCount() < 0x1000_0000
      && clusterBegin + RootSpan() < 0x1_0000_0000
      && clusterBegin + RootSpan() + clusterCount * sectorsPerCluster < 0x1_0000_0000
    }

    lemma LbaIsRel(cluster: u32, s: nat)
      requires Ok() && 2 <= cluster < Limit() && s < sectorsPerCluster
      ensures LbaOfCluster(cluster) + s == clusterBegin + Rel(cluster, s)
      ensures RootSpan() <= Rel(cluster, s) < RootSpan() + clusterCount * sectorsPerCluster
    {
      hide Ok, Wrap, RootSpan, Rel, LbaOfCluster;
      DataFits();
      RelBounds(cluster, s);
      RelBounds(cluster, 0);
      LbaShape(cluster);
      Unwrapped(clusterBegin + Rel(cluster, 0));
    }

    lemma RelBounds(cluster: u32, s: nat)
      requires 2 <= cluster < Limit() && s < sectorsPerCluster
      ensures Rel(cluster, s) == Rel(cluster, 0) + s
      ensures RootSpan() <= Rel(cluster, s) < RootSpan() + clusterCount * sectorsPerCluster
    {
      hide RootSpan;
      Arith.CellBelow(cluster - 2, clusterCount, s, sectorsPerCluster);
    }

    lemma LbaShape(cluster: u32)
      requires 2 <= cluster
      ensures LbaOfCluster(cluster) == Wrap(clusterBegin + Rel(cluster, 0))
    {
      assert Wrap(cluster - 2) == cluster - 2 by { Unwrapped(cluster - 2); }
    }

    lemma DataFits()
      requires Ok()
      ensures clusterBegin + RootSpan() + clusterCount * sectorsPerCluster < 0x1_0000_0000
    {
    }

    static lemma Unwrapped(x: int)
      requires 0 <= x < 0x1_0000_0000
      ensures Wrap(x) == x
    {
    }

    /**
     * Cluster 2 is the first of the data, behind the sectors of the FAT16 root directory, and each
     * cluster is followed by the next.
     */
    lemma ClustersInOrder(c: u32)
      requires Ok() && 2 <= c < Limit()
      ensures LbaOfCluster(2) == if fatType == FAT16 then clusterBegin + rootEntryCount / 16 else clusterBegin
      ensures c + 1 < Limit() ==> LbaOfCluster(c + 1) == LbaOfCluster(c) + sectorsPerCluster
    {
      hide Ok, LbaOfCluster, Wrap, RootSpan;
      RootSpanIs();
      LbaIsRel(2, 0);
      LbaIsRel(c, 0);
      RelNext(c);
      if c + 1 < Limit() {
        LbaIsRel(c + 1, 0);
      }
    }

    lemma RelNext(c: int)
      ensures Rel(2, 0) == RootSpan() && Rel(c + 1, 0) == Rel(c, 0) + sectorsPerCluster
    {
    }

    lemma RootSpanIs()
      requires Ok()
      ensures sectorsPerCluster >= 1 && Limit() < 0x1000_0000
      ensures RootSpan() == if fatType == FAT16 then rootEntryCount / 16 else 0
    {
    }

    /**
     * The FAT, the FAT16 root directory and the clusters are apart, and an address belongs to one
     * sector of one cluster.
     */
    lemma RegionsApart(lba: u32, c: u32, s: nat, d: u32, t: nat)
      requires Ok() && 2 <= c < Limit() && 2 <= d < Limit() && s < sectorsPerCluster && t < sectorsPerCluster
      ensures InFat(lba) ==> lba < clusterBegin
      ensures LbaOfCluster(c) + s >= clusterBegin + RootSpan()
      ensures LbaOfCluster(c) + s == LbaOfCluster(d) + t ==> c == d && s == t
    {
      LbaIsRel(c, s);
      LbaIsRel(d, t);
      if Rel(c, s) == Rel(d, t) {
        RelInjective(c, s, d, t);
      }
    }

    /** The copies of the FAT are apart from each other, and all of them lie before the data. */
    lemma CopiesApart(fats: nat, i: nat, a: nat, j: nat, b: nat)
      requires fatBegin + fats * fatSectors <= clusterBegin && i < fats && j < fats && a < fatSectors && b < fatSectors
      ensures fatBegin + i * fatSectors + a < clusterBegin
      ensures fatBegin + i * fatSectors + a == fatBegin + j * fatSectors + b ==> i == j && a == b
    {
      Arith.CellBelow(i, fats, a, fatSectors);
      if i * fatSectors + a == j * fatSectors + b {
        Arith.CellUnique(i, a, j, b, fatSectors);
      }
    }

    lemma RelInjective(c: nat, s: nat, d: nat, t: nat)
      requires 2 <= c && 2 <= d && s < sectorsPerCluster && t < sectorsPerCluster
      requires Rel(c, s) == Rel(d, t)
      ensures c == d && s == t
    {
      Arith.CellUnique(c - 2, s, d - 2, t, sectorsPerCluster);
    }
  }

  /** The value the driver sees in a stored entry: the top four bits of a FAT32 entry are masked. */
  function Masked(ty: FatType, raw: u32): u32 {
    if ty == FAT16 then raw % 0x1_0000 else raw % 0x1000_0000
  }

  predicate IsEnd(ty: FatType, masked: u32) {
    masked >= if ty == FAT16 then 0xFFF8 else 0x0FFF_FFF8
  }

  /** The answer of fatfs_find_next_cluster for an entry. */
  function Link(ty: FatType, raw: u32): u32 {
    if IsEnd(ty, Masked(ty, raw)) then LAST_CLUSTER else Masked(ty, raw)
  }

  /** What is kept of a value written to an entry. */
  function Stored(ty: FatType, v: u32): u32 {
    if ty == FAT16 then v % 0x1_0000 else v
  }

  /** The top four bits of a FAT32 entry are not part of the link; the last eight values end a chain. */
  lemma LinkOf32(top: nat, link: nat)
    requires top < 16 && link < 0x1000_0000
    ensures var raw: u32 := top * 0x1000_0000 + link;
      && Masked(FAT32, raw) == link && Link(FAT32, raw) == (if link >= 0x0FFF_FFF8 then 0xFFFF_FFFF else link)
      && Stored(FAT32, raw) == raw
  {
  }

  lemma LinkOf16(raw: u32)
    ensures raw < 0x1_0000 ==> Masked(FAT16, raw) == raw && Stored(FAT16, raw) == raw
    ensures raw < 0x1_0000 ==> Link(FAT16, raw) == if raw >= 0xFFF8 then 0xFFFF_FFFF else raw
    ensures Stored(FAT16, 0xFFFF_FFFF) == 0xFFFF
  {
  }
}
