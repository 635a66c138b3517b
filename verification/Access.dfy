/** The mounted volume: the FAT, the data sectors, and the one-sector window on directories. */
module Access {
  import opened Words
  import opened Layout
  import opened BlockDevice
  import opened FatTables
  import opened Chains
  import opened Contents

  /** What the volume stores: the FAT, and the sectors from clusterBegin on. */
  datatype Volume = Volume(T: seq<u32>, data: seq<Sector>)

  /** Writing behind the FAT leaves the view through the FAT buffers alone. */
  lemma DataWriteKeeps(g: Geometry, list: seq<Buffer>, disk: seq<Sector>, disk': seq<Sector>, fat: seq<Sector>)
    requires g.Ok() && Views(g, list, disk, fat) && |disk'| == |disk|
    requires forall a :: 0 <= a < g.clusterBegin ==> disk'[a] == disk[a]
    ensures Views(g, list, disk', fat)
  {
    forall i | 0 <= i < |list| ensures BufferOk(g, list[i], disk', fat) {
      assert BufferOk(g, list[i], disk, fat);
    }
  }

  lemma OnlyFatKeepsData(g: Geometry, disk: seq<Sector>, disk': seq<Sector>)
    requires g.Ok() && OnlyFat(g, disk, disk') && g.clusterBegin <= |disk|
    ensures |disk'| == |disk| && disk'[g.clusterBegin..] == disk[g.clusterBegin..]
  {
  }

  lemma RunInData(sectors: seq<Sector>, begin: nat, lba: nat, count: nat)
    requires begin <= lba && lba + count <= |sectors|
    ensures sectors[lba..lba + count] == sectors[begin..][lba - begin..lba - begin + count]
  {
  }

  /** The sectors with a run of them replaced. */
  function Over(data: seq<Sector>, at: nat, run: seq<Sector>): (r: seq<Sector>)
    requires at + |run| <= |data|
    ensures |r| == |data|
    ensures forall k :: 0 <= k < |data| ==> r[k] == if at <= k < at + |run| then run[k - at] else data[k]
  {
    data[..at] + run + data[at + |run|..]
  }

  class FatFs {
    const disk: Disk
    const table: FatTable
    const geo: Geometry

    // fs->currentsector
    var curAddress: u32
    var current: Sector

    ghost var data: seq<Sector>  // the sectors from clusterBegin on

    /** Everything but the agreement of the current sector with the disk. */
    ghost predicate Attached()
      reads `data, table, disk
    {
      && table.disk == disk && table.geo == geo && table.Valid() && disk.reliable
      && geo.clusterBegin + Span(geo) <= |disk.sectors| < 0x1_0000_0000
      && data == disk.sectors[geo.clusterBegin..]
    }

    ghost predicate Coherent()
      reads this
    {
      curAddress != INVALID_CLUSTER ==>
        geo.clusterBegin <= curAddress < geo.clusterBegin + |data| && current == data[curAddress - geo.clusterBegin]
    }

    ghost predicate Valid()
      reads this, table, disk
    {
      Attached() && Coherent()
    }

    ghost function State(): Volume
      reads `data, table
    {
      Volume(table.T, data)
    }

    /** A volume whose FAT buffers have just been set up. */
    constructor (table: FatTable)
      requires table.Valid() && table.disk.reliable
      requires table.geo.clusterBegin + Span(table.geo) <= |table.disk.sectors| < 0x1_0000_0000
      ensures Valid() && this.table == table && disk == table.disk && geo == table.geo
      ensures curAddress == INVALID_CLUSTER
    {
      this.table, disk, geo := table, table.disk, table.geo;
      curAddress, current := INVALID_CLUSTER, Blank();
      data := table.disk.sectors[table.geo.clusterBegin..];
    }

    /** A FAT operation touches neither the data nor the current sector. */
    twostate lemma TableOnly()
      requires old(Valid()) && unchanged(this) && table.Valid()
      requires OnlyFat(geo, old(disk.sectors), disk.sectors)
      ensures Valid()
    {
      OnlyFatKeepsData(geo, old(disk.sectors), disk.sectors);
    }

    method NextCluster(cluster: u32) returns (next: u32)
      requires Valid() && 2 <= cluster < |table.T|
      modifies table, disk
      ensures Valid() && State() == old(State())
      ensures next == Link(geo.fatType, table.T[cluster])
    {
      next := table.FindNextCluster(cluster);
      assert Valid() by { TableOnly(); }
    }

    method SetCluster(cluster: u32, next: u32)
      requires Valid() && cluster < |table.T|
      modifies table, disk
      ensures Valid() && State() == old(State()).(T := old(table.T)[cluster := Stored(geo.fatType, next)])
    {
      var ok := table.SetCluster(cluster, next);
      assert Valid() by { TableOnly(); }
    }

    method FindBlankCluster(start: u32) returns (ok: bool, blank: u32)
      requires Valid() && start <= |table.T|
      modifies table, disk
      ensures Valid() && State() == old(State()) && |table.T| < 0x1000_0000
      ensures ok <==> FreeIn(geo.fatType, table.T, start, |table.T|) != []
      ensures ok ==> blank < |table.T| && IsFree(geo.fatType, table.T, blank)
      ensures ok ==> blank == FreeIn(geo.fatType, table.T, start, |table.T|)[0]
    {
      ok, blank := table.FindBlankCluster(start);
      assert Valid() by { TableOnly(); }
      if ok {
        FreeInFirst(geo.fatType, table.T, start, blank, |table.T|);
      } else {
        FreeInNone(geo.fatType, table.T, start, |table.T|);
      }
    }

    method AddClusterToChain(start: u32, newEntry: u32, ghost chain: seq<u32>)
      requires Valid() && newEntry < |table.T| && IsChain(geo.fatType, table.T, chain) && chain[0] == start
      modifies table, disk
      ensures Valid()
      ensures State() == old(State()).(T := Appended(geo.fatType, old(table.T), chain[|chain| - 1], [newEntry]))
    {
      var ok := table.AddClusterToChain(start, newEntry, chain);
      assert Valid() by { TableOnly(); }
    }

    method FreeClusterChain(start: u32)
      requires Valid() && LinksInRange(geo.fatType, table.T) && (start == LAST_CLUSTER || start < |table.T|)
      modifies table, disk
      ensures Valid() && State() == old(State()).(T := Freed(geo.fatType, old(table.T), start))
    {
      table.FreeClusterChain(start);
      assert Valid() by { TableOnly(); }
    }

    /** Set the next-free hint to unknown unless it is. */
    method ForgetNextFree()
      requires Valid()
      modifies table, disk
      ensures Valid() && State() == old(State())
    {
      if table.nextFree != LAST_CLUSTER {
        table.SetFsInfoNextFree(LAST_CLUSTER);
        assert Valid() by { TableOnly(); }
      }
    }

    method Purge()
      requires Valid()
      modifies table, disk
      ensures Valid() && State() == old(State()) && table.OnDisk() == table.T
    {
      var ok := table.Purge();
      assert Valid() by { TableOnly(); }
    }

    /** fatfs_write_sector and fatfs_sector_write of one sector that is not the current one, or equals it. */
    method WriteData(lba: u32, s: Sector)
      requires Valid() && geo.clusterBegin <= lba < geo.clusterBegin + |data|
      requires lba == curAddress ==> s == current
      modifies `data, disk
      ensures Valid() && table.T == old(table.T) && data == old(data)[lba - geo.clusterBegin := s]
    {
      var ok := disk.WriteOne(lba, s);
      DataWriteKeeps(geo, table.list, old(disk.sectors), disk.sectors, table.fat);
      data := data[lba - geo.clusterBegin := s];
    }

    /** fatfs_sector_read of a run of data sectors. */
    method ReadRun(lba: u32, count: nat) returns (done: nat, got: seq<Sector>)
      requires Valid() && geo.clusterBegin <= lba && lba + count <= geo.clusterBegin + |data|
      ensures done == count && got == data[lba - geo.clusterBegin..lba - geo.clusterBegin + count]
    {
      done := 0;
      var ok;
      ok, got := disk.ReadSectors(lba, count);
      RunInData(disk.sectors, geo.clusterBegin, lba, count);
      if ok {
        done := count;
      }
    }

    /** fatfs_sector_write of a run of data sectors, the current one not among them. */
    method WriteRun(lba: u32, run: seq<Sector>) returns (done: nat)
      requires Valid() && geo.clusterBegin <= lba && lba + |run| <= geo.clusterBegin + |data|
      requires curAddress == INVALID_CLUSTER || curAddress < lba || lba + |run| <= curAddress
      modifies `data, disk
      ensures Valid() && table.T == old(table.T) && done == |run|
      ensures data == Over(old(data), lba - geo.clusterBegin, run)
    {
      done := 0;
      var ok := disk.WriteSectors(lba, run);
      DataWriteKeeps(geo, table.list, old(disk.sectors), disk.sectors, table.fat);
      data := Over(data, lba - geo.clusterBegin, run);
      if ok {
        done := |run|;
      }
    }

    /** Write the current sector, whatever its bytes are now, to its place. */
    method WriteCurrent() returns (ok: bool)
      requires Attached() && geo.clusterBegin <= curAddress < geo.clusterBegin + |data|
      modifies `data, disk
      ensures ok && Valid() && table.T == old(table.T) && data == old(data)[curAddress - geo.clusterBegin := current]
    {
      ok := disk.WriteOne(curAddress, current);
      DataWriteKeeps(geo, table.list, old(disk.sectors), disk.sectors, table.fat);
      data := data[curAddress - geo.clusterBegin := current];
    }

    /** Make the sector at lba the current one. */
    method LoadCurrent(lba: u32) returns (ok: bool)
      requires Valid() && geo.clusterBegin <= lba < geo.clusterBegin + |data|
      modifies `curAddress, `current
      ensures Valid() && ok && curAddress == lba && current == data[lba - geo.clusterBegin]
    {
      if lba != curAddress {
        curAddress := lba;
        ok, current := disk.ReadOne(lba);
      } else {
        ok := true;
      }
    }

    /** The current sector is sector x of the directory. */
    ghost predicate Window(dir: seq<u32>, x: nat)
      reads `curAddress
    {
      x < |DirAddrs(geo, dir)| && curAddress == geo.clusterBegin + DirAddrs(geo, dir)[x]
    }

    ghost predicate CurrentIn(dir: seq<u32>)
      reads `curAddress
    {
      exists x :: Window(dir, x)
    }

    /** fatfs_sector_reader with no target: make sector offset of a directory the current one. */
    method SectorReader(start: u32, offset: nat, ghost dir: seq<u32>) returns (ok: bool)
      requires Valid() && DirChain(geo, table.T, start, dir)
      requires offset <= |DirAddrs(geo, dir)|
      modifies `curAddress, `current, table, disk
      ensures Valid() && State() == old(State())
      ensures ok <==> offset < |DirAddrs(geo, dir)|
      ensures ok ==> Window(dir, offset) && current == Pick(data, DirAddrs(geo, dir))[offset]
      ensures !ok ==> curAddress == old(curAddress) && current == old(current)
    {
      DirClusters(geo, table.T, start, dir);
      var lba: u32;
      if geo.fatType == FAT16 && start == 0 {
        assert dir == [];
        if offset >= geo.rootSectors {
          return false;
        }
        assert geo.lbaBegin + geo.rootFirstSector + offset == geo.clusterBegin + DirAddrs(geo, dir)[offset];
        lba := geo.lbaBegin + geo.rootFirstSector + offset;
        ok := true;
      } else {
        ok, lba := ClusterSector(start, offset, dir);
        if !ok {
          return;
        }
      }
      hide FatFs.Valid, Geometry.Ok, Geometry.LbaOfCluster, IsChain, Link, Addrs;
      LoadDirSector(lba, offset, dir);
    }

    method LoadDirSector(lba: u32, ghost offset: nat, ghost dir: seq<u32>)
      requires Valid() && Clusters(geo, dir) && (dir == [] ==> geo.fatType == FAT16) && offset < |DirAddrs(geo, dir)|
      requires lba == geo.clusterBegin + DirAddrs(geo, dir)[offset]
      modifies `curAddress, `current
      ensures Valid() && Window(dir, offset) && current == Pick(data, DirAddrs(geo, dir))[offset]
    {
      assert 0 <= DirAddrs(geo, dir)[offset] < Span(geo) by { DirAddrsIn(geo, dir, offset); }
      hide Geometry.Ok, DirAddrs, Span;
      var ok := LoadCurrent(lba);
    }

    /** The chain-following branch of fatfs_sector_reader. */
    method ClusterSector(start: u32, offset: nat, ghost dir: seq<u32>) returns (ok: bool, lba: u32)
      requires Valid() && DataChain(geo, table.T, dir) && dir[0] == start && offset <= |Addrs(geo, dir)|
      modifies table, disk
      ensures Valid() && State() == old(State())
      ensures ok <==> offset < |Addrs(geo, dir)|
      ensures ok ==> lba == geo.clusterBegin + Addrs(geo, dir)[offset]
    {
      var clusterToRead, sectorToRead := SplitOffset(geo, offset, dir);
      hide FatFs.Valid, Geometry.Ok, Geometry.LbaOfCluster, Geometry.Rel, Span, Link, Addrs;
      var cluster := Walk(start, clusterToRead, dir);
      if cluster == LAST_CLUSTER {
        return false, 0;
      }
      ok, lba := true, geo.LbaOfCluster(cluster) + sectorToRead;
    }

    /** The chain-following loop of fatfs_sector_reader. */
    method Walk(start: u32, steps: nat, ghost dir: seq<u32>) returns (cluster: u32)
      requires Valid() && DataChain(geo, table.T, dir) && dir[0] == start && steps <= |dir|
      modifies table, disk
      ensures Valid() && State() == old(State())
      ensures cluster == if steps < |dir| then dir[steps] else LAST_CLUSTER
    {
      hide FatFs.Valid, Link, Span;
      cluster := start;
      for i := 0 to steps
        invariant Valid() && State() == old(State())
        invariant cluster == if i < |dir| then dir[i] else LAST_CLUSTER
      {
        cluster := NextCluster(cluster);
      }
    }
  }
}
