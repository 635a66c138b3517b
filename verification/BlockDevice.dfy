/** The block device behind the driver's read_media and write_media. */
module BlockDevice {
  import opened Words

  /**
   * A disk is a row of sectors.  A transfer moves all the sectors asked for or none.  An
   * unreliable disk may refuse any transfer; a reliable one refuses only those that leave
   * the disk.
   */
  class Disk {
    var sectors: seq<Sector>
    const reliable: bool

    constructor (contents: seq<Sector>, reliable: bool)
      ensures sectors == contents && this.reliable == reliable
    {
      this.sectors := contents;
      this.reliable := reliable;
    }

    method Accepts(lba: u32, count: nat) returns (ok: bool)
      ensures ok ==> lba + count <= |sectors|
      ensures reliable && lba + count <= |sectors| ==> ok
    {
      var luck: bool := *;
      ok := lba + count <= |sectors| && (reliable || luck);
    }

    method ReadSectors(lba: u32, count: nat) returns (ok: bool, data: seq<Sector>)
      ensures reliable && lba + count <= |sectors| ==> ok
      ensures ok ==> lba + count <= |sectors| && data == sectors[lba..lba + count]
    {
      ok := Accepts(lba, count);
      data := if ok then sectors[lba..lba + count] else [];
    }

    method WriteSectors(lba: u32, data: seq<Sector>) returns (ok: bool)
      modifies this
      ensures reliable && lba + |data| <= |old(sectors)| ==> ok
      ensures ok ==> lba + |data| <= |old(sectors)|
      ensures sectors == if ok then old(sectors)[..lba] + data + old(sectors)[lba + |data|..] else old(sectors)
    {
      ok := Accepts(lba, |data|);
      if ok {
        sectors := sectors[..lba] + data + sectors[lba + |data|..];
      }
    }

    method WriteOne(lba: u32, data: Sector) returns (ok: bool)
      modifies this
      ensures reliable && lba < |old(sectors)| ==> ok
      ensures ok ==> lba < |old(sectors)| && sectors == old(sectors)[lba := data]
      ensures !ok ==> sectors == old(sectors)
    {
      ok := WriteSectors(lba, [data]);
    }

    method ReadOne(lba: u32) returns (ok: bool, data: Sector)
      ensures reliable && lba < |sectors| ==> ok
      ensures ok ==> lba < |sectors| && data == sectors[lba]
    {
      var got: seq<Sector>;
      ok, got := ReadSectors(lba, 1);
      data := if ok then got[0] else seq(SECTOR_SIZE, _ => 0);
    }
  }
}
