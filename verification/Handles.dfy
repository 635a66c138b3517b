/** Files that stay open while the file system goes on working. */
module Handles {
  import opened Words
  import opened Layout
  import opened Chains
  import opened Contents
  import opened FatStrings
  import opened Directories
  import opened Access
  import opened DirScan
  import opened DirInsert
  import opened Listings
  import opened ShortNames
  import opened ShortChoice
  import opened Ownership
  import opened Volumes
  import opened Operations
  import opened FileIo
  import opened Files
  import opened Lifetimes
  import opened Runs

  /** An open file agrees with the volume, and pair i of its directory is its own. */
  ghost predicate Held(g: Geometry, v: Volume, t: Tree, file: OpenFile, i: nat)
    reads file
  {
    && file.start in t.chains && file.start !in t.list && EntryOf(file, t, i, file.len)
    && file.LookupOk(t.chains[file.start]) && file.SectorOk(SectorsOf(g, v.data, t.chains[file.start]))
    && file.len <= SECTOR_SIZE * |SectorsOf(g, v.data, t.chains[file.start])|
  }

  lemma OpenIsHeld(fs: FatFs, file: OpenFile, t: Tree, i: nat)
    ensures OpenIn(fs, file, t, i) <==> Ready(fs, t) && Held(fs.geo, fs.State(), t, file, i)
  {
    hide Ready, EntryOf, SectorsOf, OpenFile.LookupOk, OpenFile.SectorOk, FatFs.State;
  }

  /** The call neither writes the file nor takes its entry or its directory away. */
  ghost predicate Spares(t: Tree, file: OpenFile, i: nat, a: Action)
    reads file
  {
    match a
    case Fill(s, _, _, _, _, _, _) => s != file.start
    case Delete(d, name, orphans) =>
      && file.start !in orphans
      && (d == file.parent && d in t.list && i < |t.list[d]| ==> Normal(t.list[d][i].name) != Normal(name))
    case _ => true
  }

  /** The chain and its sectors are as they were. */
  ghost predicate Untouched(g: Geometry, v: Volume, t: Tree, w: Volume, t': Tree, s: u32) {
    && s in t.chains && s in t'.chains && t'.chains[s] == t.chains[s] && s !in t'.list
    && SameSectors(g, v, w, t.chains[s])
  }

  lemma ListsInChains(g: Geometry, v: Volume, t: Tree)
    requires Inv(g, v, t)
    ensures t.list.Keys <= t.chains.Keys && RefsIn(g.rootCluster, t) && OneRefEach(t.list)
  {
    hide Owned, Stocked, NamesDiffer, SizesFit, Geometry.Ok, KindsAgree, AllNamed, RefsIn, OneRefEach, Span;
  }

  /** The chain. */
  lemma ChainStays(g: Geometry, v: Volume, t: Tree, w: Volume, t': Tree, file: OpenFile, i: nat, a: Action)
    requires Inv(g, v, t) && Act(g, v, t, w, t', a) && Held(g, v, t, file, i) && Spares(t, file, i, a)
    ensures Untouched(g, v, t, w, t', file.start)
  {
    hide Inv, Reaches, Spent, HasName, FirstUnused, TakenBelow, Content, Spliced, Drew, SameSectors, OneMore, Record;
    hide Cleared, Without, WithSize, Below, StartCluster, SectorsOf, OpenFile.LookupOk, OpenFile.SectorOk, BaseShort;
    hide OneRefEach, RefsIn, FirstIn, Normal;
    ListsInChains(g, v, t);
    match a
    case Make(d, e) =>
    case Fill(s, p, j, off, bytes, len, len') =>
    case Delete(d, name, orphans) =>
      var j: nat :| RemovedAt(g, v, t, w, t', d, name, j);
      NotTheOne(t, file, i, d, name, j);
    case Refuse =>
    case Lose =>
  }

  /** Another pair names another chain. */
  lemma NotTheOne(t: Tree, file: OpenFile, i: nat, d: u32, name: seq<byte>, j: nat)
    requires OneRefEach(t.list) && EntryOf(file, t, i, file.len) && d in t.list && j < |t.list[d]|
    requires FirstIn(t.list[d], name, j)
    requires d == file.parent && i < |t.list[d]| ==> Normal(t.list[d][i].name) != Normal(name)
    ensures StartCluster(t.list[d][j].record) != file.start && (d == file.parent ==> j != i)
  {
    hide Normal, StartCluster, FileSize;
    assert RefAt(t.list, file.parent, i, file.start);
    assert RefAt(t.list, d, j, StartCluster(t.list[d][j].record));
  }

  /** The pair, which may move up or down in its directory. */
  lemma EntryStays(g: Geometry, v: Volume, t: Tree, w: Volume, t': Tree, file: OpenFile, i: nat, a: Action)
    returns (i': nat)
    requires Inv(g, v, t) && Act(g, v, t, w, t', a) && Held(g, v, t, file, i) && Spares(t, file, i, a)
    ensures EntryOf(file, t', i', file.len)
  {
    hide Inv, Reaches, Created, Wrote, Removed, Leaked, AllKept, EntryOf, OneRefEach, RefsIn, Orphaned;
    ListsInChains(g, v, t);
    i' := i;
    match a
    case Make(d, e) => i' := EntryMade(g, v, t, w, t', file, i, d, e);
    case Fill(s, p, j, off, bytes, len, len') => EntryResized(g, v, t, w, t', file, i, a);
    case Delete(d, name, orphans) => i' := EntryLeft(g, v, t, w, t', file, i, d, name, orphans);
    case Refuse =>
    case Lose => SameEntries(t, t', file, i);
  }

  lemma SameEntries(t: Tree, t': Tree, file: OpenFile, i: nat)
    requires Leaked(t, t') && EntryOf(file, t, i, file.len)
    ensures EntryOf(file, t', i, file.len)
  {
  }

  lemma EntryMade(g: Geometry, v: Volume, t: Tree, w: Volume, t': Tree, file: OpenFile, i: nat, d: u32, e: NewEntry)
    returns (i': nat)
    requires Created(g, v, t, w, t', d, e) && EntryOf(file, t, i, file.len) && t.list.Keys <= t.chains.Keys
    ensures EntryOf(file, t', i', file.len)
  {
    hide Spent, HasName, FirstUnused, TakenBelow, OneMore, Record, StartCluster, BaseShort, OthersKept, FileSize;
    i' := i;
    if d == file.parent {
      var n := InsertedSomewhere(t.list[d], t'.list[d], Pair(e.name, Record(e)));
      i' := if i < n then i else i + 1;
    }
  }

  lemma EntryLeft(g: Geometry, v: Volume, t: Tree, w: Volume, t': Tree, file: OpenFile, i: nat, d: u32, name: seq<byte>,
      orphans: set<u32>)
    returns (i': nat)
    requires Inv(g, v, t) && Removed(g, v, t, w, t', d, name) && Orphaned(t, t', orphans)
    requires EntryOf(file, t, i, file.len) && Spares(t, file, i, Delete(d, name, orphans))
    ensures EntryOf(file, t', i', file.len)
  {
    hide Inv, Cleared, Below, StartCluster, OneRefEach, RefsIn, FirstIn, Normal, OthersKept, FileSize, Orphaned;
    hide Pruned, Under;
    ListsInChains(g, v, t);
    var j: nat :| RemovedAt(g, v, t, w, t', d, name, j);
    NotTheOne(t, file, i, d, name, j);
    StillListed(g, v, t, t', file, i, d, j, orphans);
    i' := if d == file.parent && i > j then i - 1 else i;
  }

  lemma EntryResized(g: Geometry, v: Volume, t: Tree, w: Volume, t': Tree, file: OpenFile, i: nat, a: Action)
    requires a.Fill? && Wrote(g, v, t, w, t', a.s, a.p, a.i, a.off, a.bytes, a.len, a.len')
    requires EntryOf(file, t, i, file.len) && a.s != file.start && OneRefEach(t.list)
    ensures EntryOf(file, t', i, file.len)
  {
    hide StartCluster;
  }

  /** The directory of the file is not below what was removed, for then the file would be too. */
  lemma StillListed(g: Geometry, v: Volume, t: Tree, t': Tree, file: OpenFile, i: nat, d: u32, j: nat,
      orphans: set<u32>)
    requires Inv(g, v, t) && EntryOf(file, t, i, file.len) && d in t.list && j < |t.list[d]|
    requires t' == Pruned(t, d, j, StartCluster(t.list[d][j].record)) && Orphaned(t, t', orphans)
    requires file.start !in orphans
    ensures file.parent in t'.list
    ensures t'.list[file.parent] == if d == file.parent then Without(t.list[d], j) else t.list[file.parent]
  {
    hide Inv, StartCluster, Below, FileSize, Without, RefsIn;
    var s := StartCluster(t.list[d][j].record);
    ListsInChains(g, v, t);
    BelowHangs(g.rootCluster, t, s);
    BelowNameless(g.rootCluster, t, s);
    assert RefAt(t.list, file.parent, i, file.start);
    assert orphans == Below(t, s);
  }

  /**
   * An open file stays open through every call that does not write it or take it away; its pair may
   * have moved in its directory.
   */
  lemma StaysOpen(g: Geometry, v: Volume, t: Tree, w: Volume, t': Tree, file: OpenFile, i: nat, a: Action)
    returns (i': nat)
    requires Inv(g, v, t) && Act(g, v, t, w, t', a) && Held(g, v, t, file, i) && Spares(t, file, i, a)
    ensures Held(g, w, t', file, i')
    ensures SectorsOf(g, w.data, t'.chains[file.start]) == SectorsOf(g, v.data, t.chains[file.start])
  {
    hide Inv, Act, EntryOf, OpenFile.LookupOk, OpenFile.SectorOk, Addrs, Pick, Spares;
    ChainStays(g, v, t, w, t', file, i, a);
    i' := EntryStays(g, v, t, w, t', file, i, a);
  }

  lemma StillOpen(fs: FatFs, v: Volume, t: Tree, t': Tree, file: OpenFile, i: nat, a: Action) returns (i': nat)
    requires Inv(fs.geo, v, t) && Act(fs.geo, v, t, fs.State(), t', a) && Held(fs.geo, v, t, file, i)
    requires Spares(t, file, i, a) && Ready(fs, t')
    ensures OpenIn(fs, file, t', i')
  {
    hide Inv, Act, Ready, Held, Spares, FatFs.State;
    i' := StaysOpen(fs.geo, v, t, fs.State(), t', file, i, a);
    OpenIsHeld(fs, file, t', i');
  }

  lemma OpenReady(fs: FatFs, file: OpenFile, t: Tree, i: nat)
    requires OpenIn(fs, file, t, i)
    ensures Ready(fs, t) && Inv(fs.geo, fs.State(), t) && Held(fs.geo, fs.State(), t, file, i)
    ensures file.parent in t.list && i < |t.list[file.parent]|
  {
    hide FatFs.Valid, Inv, CurAt, EntryOf, SectorsOf, OpenFile.LookupOk, OpenFile.SectorOk;
    OpenIsHeld(fs, file, t, i);
    OpenParts(fs, file, t, i);
  }

  /** Two files are open; one of them is written. */
  method WriteBeside(fs: FatFs, file: OpenFile, other: OpenFile, bytes: seq<byte>, off: u32, ghost t: Tree,
      ghost i: nat, ghost j: nat)
    returns (written: nat, panicked: bool, ghost t': Tree, ghost j': nat)
    requires OpenIn(fs, file, t, i) && OpenIn(fs, other, t, j) && file != other && file.start != other.start
    requires off <= file.len && off + |bytes| < 0x1_0000_0000 && fs.geo.sectorsPerCluster >= 1
    requires file.start in t.chains
    requires Supply(fs.geo, fs.State().T, t.chains[file.start], Plan(fs.geo, off + |bytes|))
    modifies file`lastIndex, file`lastCluster, file`dataSector, file`dataAddress, file`len, fs, fs.table, fs.disk
    ensures !panicked ==> OpenIn(fs, file, t', i) && OpenIn(fs, other, t', j')
  {
    hide *;
    ghost var v, a := fs.State(), Action.Refuse;
    OpenReady(fs, other, t, j);
    written, panicked, t', a := CallWriteFile(fs, file, bytes, off, t, i);
    j' := j;
    if !panicked {
      OpenReady(fs, file, t', i);
      SparedByFill(t, other, j, a);
      j' := StillOpen(fs, v, t, t', other, j, a);
    }
  }

  lemma SparedByFill(t: Tree, file: OpenFile, i: nat, a: Action)
    requires a.Fill? && a.s != file.start
    ensures Spares(t, file, i, a)
  {
  }

  lemma SparedByMake(t: Tree, file: OpenFile, i: nat, a: Action)
    requires a.Make? || a.Refuse? || a.Lose?
    ensures Spares(t, file, i, a)
  {
  }

  /** A file is open; another one is created. */
  method CreateBeside(fs: FatFs, other: OpenFile, d: u32, name: seq<byte>, ghost t: Tree, ghost j: nat)
    returns (ok: bool, ghost t': Tree, ghost j': nat)
    requires MayCreate(fs, t, d, name) && OpenIn(fs, other, t, j)
    modifies fs, fs.table, fs.disk
    ensures OpenIn(fs, other, t', j')
    ensures ok <==> !Refused(fs.geo, old(fs.State()), t, d, name)
  {
    hide *;
    ghost var v, a := fs.State(), Action.Refuse;
    OpenReady(fs, other, t, j);
    ok, t', a := CallCreateFile(fs, d, name, t);
    SparedByMake(t, other, j, a);
    j' := StillOpen(fs, v, t, t', other, j, a);
  }

  /** A file is open; an entry is removed that is another and not a directory above it. */
  method RemoveBeside(fs: FatFs, other: OpenFile, d: u32, name: seq<byte>, ghost t: Tree, ghost j: nat)
    returns (ok: bool, ghost t': Tree, ghost j': nat)
    requires OpenIn(fs, other, t, j) && d in t.list && Rooted(fs.geo.rootCluster, t.list) && CString(name)
    requires forall k :: 0 <= k < |t.list[d]| && Normal(t.list[d][k].name) == Normal(name) ==>
               other.start !in Under(t, StartCluster(t.list[d][k].record))
    modifies fs, fs.table, fs.disk
    ensures OpenIn(fs, other, t', j')
    ensures ok <==> HasName(t.list[d], name)
  {
    hide *;
    ghost var v, a, g := fs.State(), Action.Refuse, fs.geo;
    OpenReady(fs, other, t, j);
    ok, t', a := CallRemove(fs, d, name, t);
    if ok {
      SparedByDelete(g, v, t, fs.State(), t', other, j, a);
    } else {
      SparedByMake(t, other, j, a);
    }
    j' := StillOpen(fs, v, t, t', other, j, a);
  }

  lemma SparedByDelete(g: Geometry, v: Volume, t: Tree, w: Volume, t': Tree, file: OpenFile, i: nat, a: Action)
    requires Inv(g, v, t) && Act(g, v, t, w, t', a) && a.Delete? && Held(g, v, t, file, i) && a.d in t.list
    requires forall k :: 0 <= k < |t.list[a.d]| && Normal(t.list[a.d][k].name) == Normal(a.name) ==>
               file.start !in Under(t, StartCluster(t.list[a.d][k].record))
    ensures Spares(t, file, i, a)
  {
    hide Inv, Reaches, Removed, Below, StartCluster, Normal, SectorsOf, OpenFile.LookupOk, OpenFile.SectorOk, FileSize;
    var k, s := RemovalOrphans(g, v, t, w, t', a.d, a.name);
    assert a.orphans == Below(t, s);
  }
}
