/**
 * The whole life of a file and of a directory, as the file system's own test program
 * plays it: create, write, open again, read, remove.
 */
module Lifetimes {
  import opened Words
  import opened Layout
  import opened FatTables
  import opened Chains
  import opened Allocation
  import opened Contents
  import opened FatStrings
  import opened LongNames
  import opened Directories
  import opened Access
  import opened DirScan
  import opened DirInsert
  import opened Listings
  import opened ShortNames
  import opened ShortChoice
  import opened Ownership
  import opened Volumes
  import opened Operations
  import opened FileBytes
  import opened FileIo
  import opened Files

  /** The name is new and can be created, and clusters are at hand for n of content and two more. */
  ghost predicate Welcome(fs: FatFs, t: Tree, d: u32, name: seq<byte>, n: nat)
    reads fs, fs.table, fs.disk
  {
    && Ready(fs, t) && d in t.list && name != [] && Creatable(fs.geo, name)
    && !HasName(t.list[d], name) && !TakenBelow(t.list[d], BaseShort(name), MAX_TAIL)
    && Stock(fs.geo, fs.State().T, n + 2)
  }

  /** n clusters are free, and the first n handed out have data sectors. */
  ghost predicate Stock(g: Geometry, T: seq<u32>, n: nat) { n <= |Free(g, T)| && Ample(g, T, n) }

  /** All names, and all chains but that of d, are as before; that of d may be longer. */
  ghost predicate Restored(g: Geometry, v: Volume, t: Tree, w: Volume, t': Tree, d: u32) {
    && t'.list == t.list && t'.loose == t.loose && t'.chains.Keys == t.chains.Keys
    && d in t.chains && t.chains[d] <= t'.chains[d]
    && forall u :: u in t.chains && u != d ==> t'.chains[u] == t.chains[u] && SameSectors(g, v, w, t.chains[u])
  }

  lemma WelcomeParts(fs: FatFs, t: Tree, d: u32, name: seq<byte>, n: nat)
    requires Welcome(fs, t, d, name, n)
    ensures MayCreate(fs, t, d, name) && CString(name) && name != [] && d in t.list
    ensures !Refused(fs.geo, fs.State(), t, d, name) && Inv(fs.geo, fs.State(), t)
    ensures !HasName(t.list[d], name) && Stock(fs.geo, fs.State().T, n + 2)
  {
    hide FatFs.Valid, Inv, CurAt, HasName, TakenBelow, Free, BaseShort, EntriesRequired, HasRoom, DirSlots;
    NamesOf(fs.geo, fs.State(), t, d);
  }

  // ----- a fresh volume

  /** A row of free clusters is handed out as it stands. */
  lemma {:induction false} AllFree(ty: FatType, T: seq<u32>, a: nat, b: nat)
    requires a <= b <= |T| < 0x1_0000_0000 && forall c :: a <= c < b ==> IsFree(ty, T, c)
    ensures |FreeIn(ty, T, a, b)| == b - a && forall i :: 0 <= i < b - a ==> FreeIn(ty, T, a, b)[i] == a + i
    decreases b - a
  {
    if a < b {
      AllFree(ty, T, a + 1, b);
    }
  }

  lemma FreshChains(g: Geometry, v: Volume)
    requires Inv(g, v, FreshTree())
    ensures DataChain(g, v.T, [2]) && 3 <= |v.T| < 0x1000_0000 && g.fatType == FAT32
    ensures forall c :: 3 <= c < |v.T| ==> IsFree(g.fatType, v.T, c)
  {
    hide Stocked, Referenced, NamesDiffer, SizesFit;
    assert FreshTree().chains[2] == [2] && DataChain(g, v.T, [2]);
    forall c | 3 <= c < |v.T| ensures IsFree(g.fatType, v.T, c) {
      assert FreshTree().chains.Keys == {2};
      assert !InSome(FreshTree().chains, c);
    }
  }

  lemma FreshStock(g: Geometry, v: Volume, n: nat)
    requires Inv(g, v, FreshTree()) && g.rootCluster == 2 && g.Limit() <= |v.T| && n < g.clusterCount
    ensures Stock(g, v.T, n)
  {
    hide Inv, FreeIn, DataChain, IsFree;
    FreshChains(g, v);
    TailUsed(g, v.T, [2]);
    FreeInSplit(g.fatType, v.T, 2, 3, |v.T|);
    FreeInNone(g.fatType, v.T, 2, 3);
    AllFree(g.fatType, v.T, 3, |v.T|);
  }

  /** On a fresh volume every name that can be created at all is welcome, with any content the volume holds. */
  lemma FreshWelcome(fs: FatFs, name: seq<byte>, n: nat)
    requires Ready(fs, FreshTree()) && fs.geo.rootCluster == 2 && name != [] && Creatable(fs.geo, name)
    requires n + 2 < fs.geo.clusterCount
    ensures Welcome(fs, FreshTree(), 2, name, n)
  {
    hide Inv, Creatable, CurAt, BaseShort, Candidate, Views, Decode, Geometry.EntryCount;
    assert fs.geo.Limit() <= |fs.State().T| by { TableFits(fs); }
    FreshStock(fs.geo, fs.State(), n + 2);
    assert FreshTree().list[2] == [];
    assert !TakenShort([], Candidate(BaseShort(name), 0));
  }

  lemma TableFits(fs: FatFs)
    requires fs.Valid()
    ensures |fs.State().T| == fs.geo.EntryCount() && fs.geo.Ok()
    ensures fs.geo.Limit() <= |fs.State().T|
  {
    hide Views, Entry;
  }

  // ----- the entry of a new name

  lemma SameFirst(list: seq<Pair>, list': seq<Pair>, name: seq<byte>, i: nat, j: nat)
    requires FirstIn(list, name, i) && FirstIn(list', name, j) && |list'| == |list|
    requires forall k :: 0 <= k < |list| ==> list'[k].name == list[k].name
    ensures j == i
  {
    hide Normal;
  }

  /** The new pair is the one that a lookup finds, and the others are those from before. */
  lemma NewPair(list: seq<Pair>, list': seq<Pair>, name: seq<byte>, record: Slot, i: nat)
    requires OneMore(list, list', Pair(name, record)) && NamesDiffer(list') && FirstIn(list', name, i)
    ensures i < |list'| && list'[i] == Pair(name, record) && Without(list', i) == list
  {
    hide Normal, SameShortName;
    var k := InsertedSomewhere(list, list', Pair(name, record));
    assert list'[k].name == name;
    assert i == k;
  }

  /** Nothing else of this name stands in the directory. */
  lemma OnlyOne(list: seq<Pair>, name: seq<byte>, i: nat)
    requires NamesDiffer(list) && FirstIn(list, name, i) && i < |list|
    ensures forall j :: 0 <= j < |list| && Normal(list[j].name) == Normal(name) ==> j == i
  {
    hide Normal, SameShortName;
  }

  lemma NamesOf(g: Geometry, v: Volume, t: Tree, d: u32)
    requires Inv(g, v, t) && d in t.list
    ensures NamesDiffer(t.list[d]) && d in t.chains && t.list.Keys <= t.chains.Keys
  {
    hide Geometry.Ok, OneRefEach, KindsAgree, RefsIn, AllNamed, NamesDiffer, SizesFit;
  }

  // ----- a directory

  /** What a new directory or file is removed as. */
  lemma Removable(g: Geometry, v: Volume, t: Tree, d: u32, name: seq<byte>, i: nat)
    requires Inv(g, v, t) && d in t.list && FirstIn(t.list[d], name, i) && i < |t.list[d]|
    requires var s := StartCluster(t.list[d][i].record); s in t.list ==> t.list[s] == []
    ensures MayRemove(t, d, name) && HasName(t.list[d], name)
  {
    hide Inv, Normal, StartCluster, Below;
    NamesOf(g, v, t, d);
    OnlyOne(t.list[d], name, i);
    NotItself(g, v, t, d, i);
    BelowNone(t, StartCluster(t.list[d][i].record));
  }

  lemma BornPair(g: Geometry, w: Volume, t: Tree, t': Tree, d: u32, e: NewEntry, i: nat)
    requires Inv(g, w, t') && Born(t, t', d, e) && FirstIn(t'.list[d], e.name, i)
    ensures i < |t'.list[d]| && t'.list[d][i] == Pair(e.name, Record(e)) && Without(t'.list[d], i) == t.list[d]
    ensures StartCluster(Record(e)) == e.startCluster
  {
    hide Inv, Normal, NamesDiffer, StartCluster, OneMore, FirstIn, Without;
    NamesOf(g, w, t', d);
    NewPair(t.list[d], t'.list[d], e.name, Record(e), i);
  }

  /** Between creation and removal at most the size in the record changed. */
  ghost predicate Aged(g: Geometry, v: Volume, t: Tree, w: Volume, t': Tree, d: u32, i: nat, s: u32) {
    && d in t.list && d in t'.list && i < |t.list[d]| && |t'.list[d]| == |t.list[d]| && s in t.chains && s in t'.chains
    && t'.list.Keys == t.list.Keys && t'.loose == t.loose && t'.chains.Keys == t.chains.Keys
    && (forall k :: 0 <= k < |t.list[d]| ==> t'.list[d][k].name == t.list[d][k].name)
    && (forall k :: 0 <= k < |t.list[d]| && k != i ==> t'.list[d][k] == t.list[d][k])
    && StartCluster(t'.list[d][i].record) == StartCluster(t.list[d][i].record)
    && (forall x :: x in t.list && x != d ==> t'.list[x] == t.list[x])
    && (forall u :: u in t.chains && u != s ==> t'.chains[u] == t.chains[u])
    && (forall u :: u in t.chains && u != s && u != d ==> SameSectors(g, v, w, t.chains[u]))
  }

  lemma NotAged(g: Geometry, v: Volume, t: Tree, d: u32, i: nat, s: u32)
    requires d in t.list && i < |t.list[d]| && s in t.chains
    ensures Aged(g, v, t, v, t, d, i, s)
  {
    hide Pick, Addrs, StartCluster;
  }

  /** Nothing is below the new file or directory. */
  lemma StillEmpty(g: Geometry, v0: Volume, t0: Tree, v1: Volume, t1: Tree, v2: Volume, t2: Tree, d: u32, e: NewEntry,
      i: nat)
    requires Inv(g, v0, t0) && Born(t0, t1, d, e) && Aged(g, v1, t1, v2, t2, d, i, e.startCluster)
    ensures Below(t2, e.startCluster) == {} && Under(t2, e.startCluster) == {e.startCluster}
  {
    hide Inv, OneMore, Record, StartCluster, Below, SameSectors;
    NamesOf(g, v0, t0, d);
    BelowNone(t2, e.startCluster);
  }

  /** All names are back, and the chains but for the directory's. */
  lemma TreeBack(g: Geometry, v0: Volume, t0: Tree, v1: Volume, t1: Tree, v2: Volume, t2: Tree, v3: Volume, t3: Tree,
      d: u32, e: NewEntry, i: nat)
    requires Inv(g, v0, t0) && Born(t0, t1, d, e) && d in t1.list && FirstIn(t1.list[d], e.name, i)
    requires i < |t1.list[d]| && Without(t1.list[d], i) == t0.list[d]
    requires StartCluster(t1.list[d][i].record) == e.startCluster
    requires Aged(g, v1, t1, v2, t2, d, i, e.startCluster) && Removed(g, v2, t2, v3, t3, d, e.name)
    ensures t3.list == t0.list && t3.loose == t0.loose && t3.chains == t2.chains - {e.startCluster}
    ensures OthersKept(g, v2, t2, v3, t3, d)
  {
    hide Inv, Normal, Record, StartCluster, NamesDiffer, FirstIn, OneMore, SameSectors, Without, Below, OthersKept;
    var c := e.startCluster;
    var j: nat :| RemovedAt(g, v2, t2, v3, t3, d, e.name, j);
    SameFirst(t1.list[d], t2.list[d], e.name, i, j);
    NamesOf(g, v0, t0, d);
    SameWithout(t1.list[d], t2.list[d], i);
    StillEmpty(g, v0, t0, v1, t1, v2, t2, d, e, i);
    ListsBack(t0.list, t1.list, t2.list, t3.list, d, c, i);
  }

  /** Creation and removal of the same name cancel out. */
  lemma CancelOut(g: Geometry, v0: Volume, t0: Tree, v1: Volume, t1: Tree, v2: Volume, t2: Tree, v3: Volume, t3: Tree,
      d: u32, e: NewEntry, i: nat)
    requires Inv(g, v0, t0) && Inv(g, v1, t1) && Created(g, v0, t0, v1, t1, d, e) && d in t1.list
    requires FirstIn(t1.list[d], e.name, i)
    requires Aged(g, v1, t1, v2, t2, d, i, e.startCluster) && Removed(g, v2, t2, v3, t3, d, e.name)
    ensures Restored(g, v0, t0, v3, t3, d)
  {
    hide Inv, Normal, Record, StartCluster, NamesDiffer, FirstIn, OneMore, HasName, FirstUnused, TakenBelow, BaseShort;
    hide Spent, Addrs, Without, Below, Pick, Removed;
    var c := e.startCluster;
    BornPair(g, v1, t0, t1, d, e, i);
    TreeBack(g, v0, t0, v1, t1, v2, t2, v3, t3, d, e, i);
    forall u | u in t0.chains && u != d ensures t3.chains[u] == t0.chains[u] && SameSectors(g, v0, v3, t0.chains[u]) {
      assert t1.chains[u] == t0.chains[u] && SameSectors(g, v0, v1, t0.chains[u]);
      assert t2.chains[u] == t1.chains[u] && SameSectors(g, v1, v2, t1.chains[u]);
      assert t3.chains[u] == t2.chains[u] && SameSectors(g, v2, v3, t2.chains[u]);
    }
  }

  lemma SameWithout(a: seq<Pair>, b: seq<Pair>, i: nat)
    requires i < |a| == |b| && forall k :: 0 <= k < |a| && k != i ==> b[k] == a[k]
    ensures Without(b, i) == Without(a, i)
  {
  }

  lemma ListsBack(l0: Lists, l1: Lists, l2: Lists, l3: Lists, d: u32, c: u32, i: nat)
    requires d in l0 && d in l1 && d in l2 && d != c && c !in l0 && l0.Keys - {c} == l1.Keys - {c} == l2.Keys - {c}
    requires i < |l2[d]| && Without(l2[d], i) == l0[d] && l3 == l2[d := Without(l2[d], i)] - {c}
    requires forall x :: x in l0 && x != d ==> x in l1 && l1[x] == l0[x]
    requires forall x :: x in l1 && x != d ==> x in l2 && l2[x] == l1[x]
    ensures l3 == l0
  {
    hide Without;
    forall x | x in l0 ensures x in l3 && l3[x] == l0[x] {
      assert x in l0.Keys - {c};
    }
    forall x | x in l3 ensures x in l0 {
      assert x in l2.Keys - {c};
    }
  }

  /** A directory is made and removed: nothing is left of it. */
  method DirectoryLife(fs: FatFs, d: u32, name: seq<byte>, ghost t: Tree) returns (ok: bool, ghost t': Tree)
    requires Welcome(fs, t, d, name, 0)
    modifies fs, fs.table, fs.disk
    ensures ok && Ready(fs, t') && Restored(fs.geo, old(fs.State()), t, fs.State(), t', d)
  {
    hide *;
    ghost var v0, g := fs.State(), fs.geo;
    ghost var e, t1, i, k;
    WelcomeParts(fs, t, d, name, 0);
    var c, entry;
    ok, c, e, t1 := CreateDir(fs, d, name, t);
    WasRefused(g, v0, t, fs.State(), t1, d, name);
    ghost var v1 := fs.State();
    ReadyParts(fs, t1);
    CreatedParts(g, v0, t, v1, t1, d, e);
    ok, entry, i, k := Lookup(fs, d, name, t1);
    BornPair(g, v1, t, t1, d, e, i);
    Removable(g, v1, t1, d, name, i);
    ok, t' := Remove(fs, d, name, t1);
    NotAged(g, v1, t1, d, i, c);
    CancelOut(g, v0, t, v1, t1, v1, t1, fs.State(), t', d, e, i);
  }

  lemma WasRefused(g: Geometry, v: Volume, t: Tree, w: Volume, t': Tree, d: u32, name: seq<byte>)
    requires d in t.list && !Refused(g, v, t, d, name)
    ensures !DirRefused(g, v, t, w, t', d, name)
  {
    hide Refused, HasName, Free, TakenBelow, BaseShort, AllKept;
  }

  lemma ReadyParts(fs: FatFs, t: Tree)
    requires Ready(fs, t)
    ensures Inv(fs.geo, fs.State(), t) && CurAt(fs.geo, fs.curAddress, t) && fs.Valid()
  {
  }

  lemma ReadyAgain(fs: FatFs, t: Tree, v: Volume, a: u32, s: u32, ch: seq<u32>)
    requires Inv(fs.geo, v, t) && CurAt(fs.geo, a, t) && fs.State() == v && fs.curAddress == a && ChainOf(fs, s, ch)
    ensures Ready(fs, t)
  {
  }

  lemma ReadsAll(len: u32, capacity: nat)
    requires len <= capacity
    ensures BytesRead(len, 0, len, capacity) == len
  {
  }

  lemma GotAll(fs: FatFs, file: OpenFile, ch: seq<u32>, secs: seq<Sector>, buf: seq<byte>, before: seq<byte>, n: nat)
    requires Readable(fs, file, ch, secs) && Got(buf, before, secs, 0, n)
    ensures ChainOf(fs, file.start, ch) && n <= |buf| && buf[..n] == Bytes(secs, 0, n)
  {
  }

  lemma CreatedParts(g: Geometry, v: Volume, t: Tree, w: Volume, t': Tree, d: u32, e: NewEntry)
    requires Created(g, v, t, w, t', d, e)
    ensures Born(t, t', d, e) && d in t'.list && e.startCluster in t'.chains
    ensures if e.isDir then e.startCluster in t'.list && t'.list[e.startCluster] == [] else e.startCluster !in t.chains
  {
    hide OneMore, Record, Spent, OthersKept, HasName, FirstUnused, TakenBelow, BaseShort;
  }

  // ----- a file

  /** After the creation there is still what the content needs. */
  lemma ContentRoom(g: Geometry, v: Volume, t: Tree, w: Volume, t': Tree, d: u32, e: NewEntry, n: nat)
    requires Created(g, v, t, w, t', d, e) && Stock(g, v.T, n + 2)
    ensures e.startCluster in t'.chains && t'.chains[e.startCluster] == [e.startCluster]
    ensures Supply(g, w.T, t'.chains[e.startCluster], n) && Enough(g, w.T, t'.chains[e.startCluster], n)
  {
    hide OneMore, Record, OthersKept, HasName, FirstUnused, TakenBelow, BaseShort, Free;
    var k := 1 + |t'.chains[d]| - |t.chains[d]|;
    forall i | 0 <= i < Lack([e.startCluster], n) && i < |Free(g, w.T)| ensures Free(g, w.T)[i] < g.Limit() {
      assert Free(g, w.T)[i] == Free(g, v.T)[k + i];
    }
  }

  /** Create the file and open it. */
  method Begin(fs: FatFs, d: u32, name: seq<byte>, ghost n: nat, ghost t: Tree)
    returns (file: OpenFile, ghost e: NewEntry, ghost t1: Tree, ghost i: nat)
    requires Welcome(fs, t, d, name, n)
    modifies fs, fs.table, fs.disk
    ensures OpenIn(fs, file, t1, i) && fresh(file) && file.parent == d && file.start == e.startCluster && file.len == 0
    ensures Inv(fs.geo, fs.State(), t1) && d in t1.list && FirstIn(t1.list[d], name, i) && i < |t1.list[d]|
    ensures e.name == name
    ensures file.start in t1.chains && Supply(fs.geo, fs.State().T, t1.chains[file.start], n)
    ensures Enough(fs.geo, fs.State().T, t1.chains[file.start], n)
    ensures Created(fs.geo, old(fs.State()), t, fs.State(), t1, d, e) && file.start !in t1.list
    ensures Reaches(fs.geo, old(fs.State()), t, fs.State(), t1)
  {
    hide *;
    ghost var v0, g := fs.State(), fs.geo;
    WelcomeParts(fs, t, d, name, n);
    var ok, record;
    ok, record, e, t1 := CreateFile(fs, d, name, t);
    ghost var v1 := fs.State();
    ReadyParts(fs, t1);
    CreatedParts(g, v0, t, v1, t1, d, e);
    NewFile(g, v0, t, v1, t1, d, e);
    ContentRoom(g, v0, t, v1, t1, d, e, n);
    var f;
    f, i := Open(fs, d, name, t1);
    BornPair(g, v1, t, t1, d, e, i);
    file := f;
    OpenParts(fs, file, t1, i);
  }

  lemma NewFile(g: Geometry, v: Volume, t: Tree, w: Volume, t': Tree, d: u32, e: NewEntry)
    requires Inv(g, v, t) && Created(g, v, t, w, t', d, e) && !e.isDir
    ensures e.startCluster !in t'.list && FileSize(Record(e)) == 0
  {
    hide Geometry.Ok, OneRefEach, KindsAgree, RefsIn, AllNamed, NamesDiffer, SizesFit, Stocked, Owned, OneMore;
    hide OthersKept, HasName, FirstUnused, TakenBelow, BaseShort, Spent, StartCluster, FileSize;
  }

  lemma OpenParts(fs: FatFs, file: OpenFile, t: Tree, i: nat)
    requires OpenIn(fs, file, t, i)
    ensures Ready(fs, t) && file.start in t.chains && file.start !in t.list && EntryOf(file, t, i, file.len)
    ensures file.parent in t.list && i < |t.list[file.parent]|
    ensures StartCluster(t.list[file.parent][i].record) == file.start
    ensures FileSize(t.list[file.parent][i].record) == file.len
    ensures fs.geo.sectorsPerCluster >= 1
  {
    hide OpenFile.LookupOk, OpenFile.SectorOk, SectorsOf, StartCluster, FileSize;
    FileOfParts(fs, t, file.start);
    hide Ready;
  }

  /** A write at the start of a new file changes at most the size in its record. */
  lemma WroteAged(g: Geometry, v: Volume, t: Tree, w: Volume, t': Tree, s: u32, d: u32, i: nat, bytes: seq<byte>,
      len': u32)
    requires Wrote(g, v, t, w, t', s, d, i, 0, bytes, 0, len') && d in t.list && i < |t.list[d]| && s in t.chains
    ensures Aged(g, v, t, w, t', d, i, s) && len' == |bytes| && Reaches(g, v, t, w, t')
  {
    hide Content, Spliced, SameSectors, StartCluster, WithSize, Reaches, Drew;
    SizeKeepsNames(t.list[d][i].record, len');
  }

  /** Write the content of a new file. */
  method FillNew(fs: FatFs, file: OpenFile, bytes: seq<byte>, ghost t1: Tree, ghost i: nat) returns (ghost t2: Tree)
    requires OpenIn(fs, file, t1, i) && file.len == 0 && |bytes| < 0x1_0000_0000 && file.start in t1.chains
    requires fs.geo.sectorsPerCluster >= 1
    requires Supply(fs.geo, fs.State().T, t1.chains[file.start], Plan(fs.geo, |bytes|))
    requires Enough(fs.geo, fs.State().T, t1.chains[file.start], Plan(fs.geo, |bytes|))
    modifies file`lastIndex, file`lastCluster, file`dataSector, file`dataAddress, file`len, fs, fs.table, fs.disk
    ensures OpenIn(fs, file, t2, i) && file.len == |bytes|
    ensures Wrote(fs.geo, old(fs.State()), t1, fs.State(), t2, file.start, file.parent, i, 0, bytes, 0, file.len)
  {
    hide *;
    OpenParts(fs, file, t1, i);
    EnoughIsDone(fs.geo, fs.State().T, t1.chains[file.start], |bytes|);
    var written, panicked;
    written, panicked, t2 := WriteFile(fs, file, bytes, 0, t1, i);
    assert bytes[..written] == bytes;
    WroteAged(fs.geo, old(fs.State()), t1, fs.State(), t2, file.start, file.parent, i, bytes, file.len);
  }

  /** Open the file again and read all of it. */
  method ReadAll(fs: FatFs, d: u32, name: seq<byte>, bytes: seq<byte>, buffer: array<byte>, ghost v1: Volume,
      ghost t1: Tree, ghost t2: Tree, ghost i: nat, ghost s: u32)
    requires Ready(fs, t2) && d in t2.list && CString(name) && FirstIn(t2.list[d], name, i) && i < |t2.list[d]|
    requires StartCluster(t2.list[d][i].record) == s && FileSize(t2.list[d][i].record) == |bytes| && s !in t2.list
    requires |bytes| < 0x1_0000_0000 && |bytes| <= buffer.Length
    requires Wrote(fs.geo, v1, t1, fs.State(), t2, s, d, i, 0, bytes, 0, |bytes|)
    modifies fs, fs.table, fs.disk, buffer
    ensures Ready(fs, t2) && fs.State() == old(fs.State()) && buffer[..|bytes|] == bytes
  {
    hide *;
    ghost var j;
    var file;
    file, j := Open(fs, d, name, t2);
    SameFirst(t2.list[d], t2.list[d], name, i, j);
    OpenReadable(fs, file, t2, j);
    OpenParts(fs, file, t2, j);
    ghost var ch := t2.chains[s];
    ghost var secs := SectorsOf(fs.geo, fs.State().data, ch);
    ReadyParts(fs, t2);
    ghost var v2, a := fs.State(), fs.curAddress;
    var n := ReadFile(fs, file, buffer, 0, |bytes|, ch, secs);
    ReadsAll(|bytes|, SECTOR_SIZE * |secs|);
    ReadBack(fs.geo, v1, t1, v2, t2, s, d, i, 0, bytes, 0, |bytes|);
    GotAll(fs, file, ch, secs, buffer[..], old(buffer[..]), n);
    ReadyAgain(fs, t2, v2, a, s, ch);
  }

  /**
   * A file is created, written, read and removed: what was read is what was written, and nothing is
   * left of the file.
   */
  method FileLife(fs: FatFs, d: u32, name: seq<byte>, bytes: seq<byte>, buffer: array<byte>, ghost t: Tree)
    returns (ok: bool, ghost t': Tree)
    requires fs.geo.sectorsPerCluster >= 1 && |bytes| < 0x1_0000_0000 && |bytes| <= buffer.Length
    requires Welcome(fs, t, d, name, Plan(fs.geo, |bytes|))
    modifies fs, fs.table, fs.disk, buffer
    ensures ok && Ready(fs, t') && Restored(fs.geo, old(fs.State()), t, fs.State(), t', d)
    ensures buffer[..|bytes|] == bytes
    ensures Reaches(fs.geo, old(fs.State()), t, fs.State(), t')
  {
    hide *;
    ghost var v0, g := fs.State(), fs.geo;
    WelcomeParts(fs, t, d, name, Plan(g, |bytes|));
    var file;
    ghost var e, t1, t2, i;
    file, e, t1, i := Begin(fs, d, name, Plan(g, |bytes|), t);
    ghost var v1, s := fs.State(), file.start;
    t2 := FillNew(fs, file, bytes, t1, i);
    ghost var v2 := fs.State();
    WroteAged(g, v1, t1, v2, t2, s, d, i, bytes, file.len);
    StillFound(g, v1, t1, v2, t2, d, i, s, name);
    OpenParts(fs, file, t2, i);
    ReadAll(fs, d, name, bytes, buffer, v1, t1, t2, i, s);
    ReadyParts(fs, t2);
    Removable(g, v2, t2, d, name, i);
    ok, t' := Remove(fs, d, name, t2);
    CancelOut(g, v0, t, v1, t1, v2, t2, fs.State(), t', d, e, i);
    ReachesOn(g, v0, t, v1, t1, v2, t2);
    ReachesOn(g, v0, t, v2, t2, fs.State(), t');
  }

  /** The lookup goes on finding the file. */
  lemma StillFound(g: Geometry, v: Volume, t: Tree, w: Volume, t': Tree, d: u32, i: nat, s: u32, name: seq<byte>)
    requires Aged(g, v, t, w, t', d, i, s) && FirstIn(t.list[d], name, i)
    ensures d in t'.list && FirstIn(t'.list[d], name, i) && i < |t'.list[d]|
  {
    hide Normal, StartCluster, SameSectors;
  }
}
