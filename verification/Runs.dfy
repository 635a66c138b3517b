/** Whole runs of the file system: which operations follow each other, and what holds after each. */
module Runs {
  import opened Words
  import opened Layout
  import opened Chains
  import opened Contents
  import opened FatStrings
  import opened LongNames
  import opened Directories
  import opened Access
  import opened Allocation
  import opened DirScan
  import opened DirInsert
  import opened Listings
  import opened ShortNames
  import opened ShortChoice
  import opened Ownership
  import opened Volumes
  import opened Operations
  import opened FileIo
  import opened Files
  import opened Format

  // ----- reachability from the root

  /** The level of each directory: 0 for the root, one more than the directory that names it for every other. */
  ghost predicate Levels(root: u32, list: Lists, level: map<u32, nat>) {
    && level.Keys == list.Keys && root in level && level[root] == 0
    && forall d, i: nat, s :: RefAt(list, d, i, s) && s in list ==> level[s] == level[d] + 1
  }

  ghost predicate Rooted(root: u32, list: Lists) { exists level :: Levels(root, list, level) }

  /** Levels are the lengths of paths: every directory can be reached. */
  lemma {:induction false} LevelLeads(root: u32, t: Tree, level: map<u32, nat>, d: u32)
    requires Referenced(root, t) && Levels(root, t.list, level) && d in t.list
    ensures Leads(root, t.list, d, level[d])
    decreases level[d]
  {
    hide Referenced, StartCluster;
    if d == root {
      assert level[d] == 0;
    } else {
      var p, i := Naming(root, t, d);
      LevelLeads(root, t, level, p);
      assert RefAt(t.list, p, i, d) && Leads(root, t.list, p, level[d] - 1);
    }
  }

  /** The entry that names a directory. */
  lemma Naming(root: u32, t: Tree, d: u32) returns (p: u32, i: nat)
    requires Referenced(root, t) && d in t.list && d != root
    ensures RefAt(t.list, p, i, d)
  {
    hide OneRefEach, KindsAgree, RefsIn, StartCluster;
    assert HasRef(t.list, d);
    p, i :| RefAt(t.list, p, i, d);
  }

  lemma LevelsSame(root: u32, list: Lists, list': Lists, level: map<u32, nat>)
    requires Levels(root, list, level) && SameRefs(list, list')
    ensures Levels(root, list', level)
  {
    hide StartCluster;
    forall d, i: nat, s | RefAt(list', d, i, s) && s in list' ensures level[s] == level[d] + 1 {
      assert RefAt(list, d, i, s);
    }
  }

  /** A new directory is one level below the one that names it. */
  lemma EnteredLevels(root: u32, t: Tree, t': Tree, d: u32, dir': seq<u32>, e: NewEntry, level: map<u32, nat>)
    requires Referenced(root, t) && Levels(root, t.list, level) && e.startCluster in t.loose && d in t.list
    requires d in t'.list
    requires OneMore(t.list[d], t'.list[d], Pair(e.name, Record(e)))
    requires t'.list == EnteredLists(t.list, d, t'.list[d], e)
    ensures Rooted(root, t'.list)
  {
    hide OneRefEach, KindsAgree, AllNamed, OneMore, Record, StartCluster, PairAdded;
    var c := e.startCluster;
    LooseIsNoDirectory(root, t, c);
    var n := EnteredGrow(t.list, t'.list, d, e);
    var level' := if e.isDir then level[c := level[d] + 1] else level;
    forall x, i: nat, s | RefAt(t'.list, x, i, s) && s in t'.list ensures level'[s] == level'[x] + 1 {
      RefBackOrNew(t.list, t'.list, d, n, Pair(e.name, Record(e)), x, i, s);
      if RefAt(t.list, x, if x == d && i > n then i - 1 else i, s) {
        RefsNotLoose(root, t);
      }
    }
    assert Levels(root, t'.list, level');
  }

  lemma UnlinkedLevels(root: u32, t: Tree, t': Tree, d: u32, n: nat, s: u32, lost: set<u32>,
      level: map<u32, nat>)
    requires Referenced(root, t) && Levels(root, t.list, level) && ListsShrink(t.list, t'.list, d, n, s, lost)
    ensures Rooted(root, t'.list)
  {
    hide StartCluster, Without, Hangs, KindsAgree, AllNamed;
    LostParts(root, t, t', d, n, s, lost);
    assert s != root;
    var level' := level - (lost + {s});
    forall x, i: nat, u | RefAt(t'.list, x, i, u) && u in t'.list ensures level'[u] == level'[x] + 1 {
      RefGone(t.list, t'.list, d, n, s, lost, x, i, u);
    }
    assert Levels(root, t'.list, level');
  }

  /** Every step keeps every directory within reach of the root. */
  lemma StepRooted(g: Geometry, v: Volume, t: Tree, w: Volume, t': Tree, m: Move)
    requires Inv(g, v, t) && Step(g, v, t, w, t', m) && Rooted(g.rootCluster, t.list)
    ensures Rooted(g.rootCluster, t'.list)
  {
    hide Inv, Allocated, Cleaned, Dropped, Entered, Unlinked, FileGrown, FileWritten, Resized, Levels;
    var level :| Levels(g.rootCluster, t.list, level);
    match m
    case Allocate(c) => SameLists(g, v, t, w, t', m);
    case Clean(c) => SameLists(g, v, t, w, t', m);
    case Drop(c) => SameLists(g, v, t, w, t', m);
    case Enter(d, dir, entry) => EnterRooted(g, v, t, w, t', d, dir, entry, level);
    case Unlink(d, k) => UnlinkRooted(g, v, t, w, t', d, k, level);
    case Grow(s, add) => SameLists(g, v, t, w, t', m);
    case Write(s) => SameLists(g, v, t, w, t', m);
    case Resize(d, k, size) => ResizeRooted(g, v, t, w, t', d, k, size, level);
  }

  lemma SameLists(g: Geometry, v: Volume, t: Tree, w: Volume, t': Tree, m: Move)
    requires Step(g, v, t, w, t', m) && !m.Enter? && !m.Unlink? && !m.Resize?
    ensures t'.list == t.list
  {
    hide Takeable, OnlyAt, Cleared, Appended, Stored;
  }

  lemma EnterRooted(g: Geometry, v: Volume, t: Tree, w: Volume, t': Tree, d: u32, dir': seq<u32>, e: NewEntry,
      level: map<u32, nat>)
    requires Inv(g, v, t) && Entered(g, v, t, w, t', d, dir', e) && Levels(g.rootCluster, t.list, level)
    ensures Rooted(g.rootCluster, t'.list)
  {
    hide Levels, Owned, SizesFit, NamesDiffer, NameIsNew, WellNamed, Usable, Bare, Geometry.Ok, DirSlots, Listing;
    hide OneMore, Record, Stocked;
    hide OneRefEach, KindsAgree, AllNamed, RefsIn, SameOrLonger, DirChain, OnlyAt, Span;
    EnteredInserted(g, v, t, w, t', d, dir', e);
    EnteredLevels(g.rootCluster, t, t', d, dir', e, level);
  }

  lemma EnteredInserted(g: Geometry, v: Volume, t: Tree, w: Volume, t': Tree, d: u32, dir': seq<u32>, e: NewEntry)
    requires Inv(g, v, t) && Entered(g, v, t, w, t', d, dir', e)
    ensures d in t.list && d in t'.list && OneMore(t.list[d], t'.list[d], Pair(e.name, Record(e)))
    ensures t'.list == EnteredLists(t.list, d, t'.list[d], e)
  {
    hide Geometry.Ok, Owned, SizesFit, NamesDiffer, OneRefEach, KindsAgree, RefsIn, AllNamed, DirSlots, WellFormed;
    hide Listing, OneMore, Span;
    hide Record, WellNamed, Usable, NameIsNew, EntryAdded, Bare;
    DirectoryOf(g, v, t, d);
    AddedInserted(g, v, w, d, t.chains[d], dir', e);
  }

  lemma UnlinkRooted(g: Geometry, v: Volume, t: Tree, w: Volume, t': Tree, d: u32, k: nat, level: map<u32, nat>)
    requires Inv(g, v, t) && Unlinked(g, v, t, w, t', d, k) && Levels(g.rootCluster, t.list, level)
    ensures Rooted(g.rootCluster, t'.list)
  {
    hide Levels, Owned, SizesFit, NamesDiffer, Geometry.Ok, DirSlots, Listing, OneRefEach, KindsAgree, AllNamed;
    hide Rewritten, Cleared, Pairs, StartCluster, Without, Below, Hangs;
    var slots := DirSlots(g, v.data, t.chains[d]);
    var s := StartCluster(slots[k]);
    PairOfSlot(g, v, t, d, k);
    BelowHangs(g.rootCluster, t, s);
    UnlinkedLevels(g.rootCluster, t, t', d, |Pairs(slots, k)|, s, Below(t, s), level);
  }

  lemma ResizeRooted(g: Geometry, v: Volume, t: Tree, w: Volume, t': Tree, d: u32, k: nat, size: u32,
      level: map<u32, nat>)
    requires Inv(g, v, t) && Resized(g, v, t, w, t', d, k, size) && Levels(g.rootCluster, t.list, level)
    ensures Rooted(g.rootCluster, t'.list)
  {
    hide Levels, Owned, SizesFit, NamesDiffer, Geometry.Ok, DirSlots, Listing, Referenced, Rewritten, Pairs, WithSize;
    hide StartCluster, IsDirectory;
    var slots := DirSlots(g, v.data, t.chains[d]);
    PairOfSlot(g, v, t, d, k);
    SizeKeepsNames(slots[k], size);
    LevelsSame(g.rootCluster, t.list, t'.list, level);
  }

  lemma {:induction false} RunRooted(g: Geometry, vs: seq<Volume>, ts: seq<Tree>, ms: seq<Move>, n: nat)
    requires IsRun(g, vs, ts, ms) && Inv(g, vs[0], ts[0]) && n < |vs| && Rooted(g.rootCluster, ts[0].list)
    ensures Rooted(g.rootCluster, ts[n].list)
  {
    hide Inv, Step, Rooted;
    if n > 0 {
      RunRooted(g, vs, ts, ms, n - 1);
      RunKeeps(g, vs, ts, ms, n - 1);
      StepRooted(g, vs[n - 1], ts[n - 1], vs[n], ts[n], ms[n - 1]);
    }
  }

  lemma ReachesRooted(g: Geometry, v: Volume, t: Tree, w: Volume, t': Tree)
    requires Inv(g, v, t) && Reaches(g, v, t, w, t') && Rooted(g.rootCluster, t.list)
    ensures Rooted(g.rootCluster, t'.list)
  {
    hide Inv, Step, Rooted;
    var vs, ts, ms :| IsRun(g, vs, ts, ms) && vs[0] == v && ts[0] == t && vs[|ms|] == w && ts[|ms|] == t';
    RunRooted(g, vs, ts, ms, |ms|);
  }

  lemma {:induction false} LevelsAlong(root: u32, list: Lists, level: map<u32, nat>, a: u32, x: u32, n: nat)
    requires Levels(root, list, level) && Leads(a, list, x, n) && a in list && x in list
    ensures level[x] == level[a] + n
    decreases n
  {
    hide StartCluster;
    if n > 0 {
      var p, i: nat :| RefAt(list, p, i, x) && Leads(a, list, p, n - 1);
      LevelsAlong(root, list, level, a, p, n - 1);
    }
  }

  /** Where every directory can be reached nothing contains the directory it is named in: every entry may be removed. */
  lemma RootedMayRemove(root: u32, t: Tree, d: u32, name: seq<byte>)
    requires Rooted(root, t.list) && d in t.list
    ensures MayRemove(t, d, name)
  {
    hide StartCluster, Levels, Normal;
    var level :| Levels(root, t.list, level);
    forall i | 0 <= i < |t.list[d]| ensures d !in Under(t, StartCluster(t.list[d][i].record)) {
      NotUnder(root, t, level, d, i);
    }
  }

  lemma NotUnder(root: u32, t: Tree, level: map<u32, nat>, d: u32, i: nat)
    requires Levels(root, t.list, level) && d in t.list && i < |t.list[d]|
    ensures d !in Under(t, StartCluster(t.list[d][i].record))
  {
    var s := StartCluster(t.list[d][i].record);
    assert RefAt(t.list, d, i, s);
    hide StartCluster, RefAt;
    if d in Below(t, s) {
      var n: nat :| n >= 1 && Leads(s, t.list, d, n);
      LeadsFrom(s, t.list, d, n);
      LevelsAlong(root, t.list, level, s, d, n);
    }
  }

  /** What a removal leaves without a name: what was below the chain, and that is nothing exactly if it was empty. */
  lemma RemovalOrphans(g: Geometry, v: Volume, t: Tree, w: Volume, t': Tree, d: u32, name: seq<byte>)
    returns (i: nat, s: u32)
    requires Inv(g, v, t) && Removed(g, v, t, w, t', d, name)
    ensures RefAt(t.list, d, i, s) && FirstIn(t.list[d], name, i) && t' == Pruned(t, d, i, s)
    ensures Orphaned(t, t', Below(t, s))
    ensures t'.loose == t.loose <==> s !in t.list || t.list[s] == []
  {
    hide StartCluster, Owned, Stocked, NamesDiffer, SizesFit, OneRefEach, KindsAgree, AllNamed, Geometry.Ok, Normal;
    hide OthersKept, Below, Span;
    i :| RemovedAt(g, v, t, w, t', d, name, i);
    s := StartCluster(t.list[d][i].record);
    BelowNameless(g.rootCluster, t, s);
    BelowExactly(g.rootCluster, t, s);
  }

  lemma BelowNameless(root: u32, t: Tree, s: u32)
    requires RefsIn(root, t)
    ensures Below(t, s) !! t.loose
  {
    hide StartCluster, RefAt;
    forall x | x in Below(t, s) ensures x !in t.loose {
      var n: nat :| n >= 1 && Leads(s, t.list, x, n);
      var p, i: nat :| RefAt(t.list, p, i, x) && Leads(s, t.list, p, n - 1);
    }
  }

  // ----- runs of operations

  /**
   * What a call can do to a volume: make an entry, write a file, remove an entry and so take the
   * names of what is below it, nothing, or nothing but lose a cluster.
   */
  datatype Action =
    | Make(d: u32, entry: NewEntry)
    | Fill(s: u32, p: u32, i: nat, off: nat, bytes: seq<byte>, len: u32, len': u32)
    | Delete(d: u32, name: seq<byte>, orphans: set<u32>)
    | Refuse
    | Lose

  ghost predicate Act(g: Geometry, v: Volume, t: Tree, w: Volume, t': Tree, a: Action) {
    && Reaches(g, v, t, w, t')
    && match a
       case Make(d, e) => Created(g, v, t, w, t', d, e)
       case Fill(s, p, i, off, bytes, len, len') => Wrote(g, v, t, w, t', s, p, i, off, bytes, len, len')
       case Delete(d, name, orphans) => Removed(g, v, t, w, t', d, name) && Orphaned(t, t', orphans)
       case Refuse => t' == t && AllKept(g, v, t, w)
       case Lose => Leaked(t, t') && AllKept(g, v, t, w)
  }

  /** These chains lost their names. */
  ghost predicate Orphaned(t: Tree, t': Tree, orphans: set<u32>) {
    t'.loose == t.loose + orphans && orphans !! t.loose
  }

  /** _fs_create_file is a Make or a Refuse. */
  method CallCreateFile(fs: FatFs, d: u32, name: seq<byte>, ghost t: Tree)
    returns (ok: bool, ghost t': Tree, ghost a: Action)
    requires MayCreate(fs, t, d, name)
    modifies fs, fs.table, fs.disk
    ensures Ready(fs, t') && Act(fs.geo, old(fs.State()), t, fs.State(), t', a)
    ensures ok <==> !Refused(fs.geo, old(fs.State()), t, d, name)
    ensures if ok then a.Make? && a.d == d && a.entry.name == name && !a.entry.isDir else a.Refuse?
  {
    hide Ready, MayCreate, Refused, Created, Reaches, AllKept, FatFs.State;
    var record;
    ghost var e;
    ok, record, e, t' := CreateFile(fs, d, name, t);
    a := if ok then Make(d, e) else Refuse;
  }

  /** _fs_create_dir is a Make, a Refuse, or the loss of a cluster. */
  method CallCreateDir(fs: FatFs, d: u32, name: seq<byte>, ghost t: Tree)
    returns (ok: bool, ghost t': Tree, ghost a: Action)
    requires MayCreate(fs, t, d, name)
    modifies fs, fs.table, fs.disk
    ensures Ready(fs, t') && Act(fs.geo, old(fs.State()), t, fs.State(), t', a)
    ensures ok <==> !Refused(fs.geo, old(fs.State()), t, d, name)
    ensures d in t.list
    ensures ok ==> a.Make? && a.d == d && a.entry.name == name && a.entry.isDir
    ensures !ok ==> (a.Lose? <==>
              !HasName(t.list[d], name) && Free(fs.geo, old(fs.State()).T) != [] &&
              TakenBelow(t.list[d], BaseShort(name), MAX_TAIL))
    ensures !ok ==> a.Lose? || a.Refuse?
  {
    hide Ready, Refused, Created, Reaches, AllKept, FatFs.State, HasName, Free, TakenBelow, BaseShort, Leaked;
    var start;
    ghost var e;
    ok, start, e, t' := CreateDir(fs, d, name, t);
    a := if ok then Make(d, e)
         else if !HasName(t.list[d], name) && Free(fs.geo, old(fs.State()).T) != [] &&
                 TakenBelow(t.list[d], BaseShort(name), MAX_TAIL) then Lose
         else Refuse;
  }

  /** _fs_remove is a Delete or a Refuse. */
  method CallRemove(fs: FatFs, d: u32, name: seq<byte>, ghost t: Tree)
    returns (ok: bool, ghost t': Tree, ghost a: Action)
    requires Ready(fs, t) && d in t.list && Rooted(fs.geo.rootCluster, t.list) && CString(name)
    modifies fs, fs.table, fs.disk
    ensures Ready(fs, t') && Act(fs.geo, old(fs.State()), t, fs.State(), t', a)
    ensures ok <==> HasName(t.list[d], name)
    ensures if ok then a.Delete? && a.d == d && a.name == name else a.Refuse?
  {
    hide Reaches, FatFs.State, HasName, Rooted, MayRemove, Removed, Orphaned, Below, SameSectors, Inv, CurAt;
    ghost var v := fs.State();
    RootedMayRemove(fs.geo.rootCluster, t, d, name);
    ok, t' := Remove(fs, d, name, t);
    a := Refuse;
    if ok {
      ghost var i, s := RemovalOrphans(fs.geo, v, t, fs.State(), t', d, name);
      a := Delete(d, name, Below(t, s));
    } else {
      KeptItself(fs.geo, v, t);
    }
  }

  lemma KeptItself(g: Geometry, v: Volume, t: Tree)
    ensures AllKept(g, v, t, v)
  {
    hide Pick, Addrs;
  }

  /** _fs_write_file is a Fill, unless it panics. */
  method CallWriteFile(fs: FatFs, file: OpenFile, bytes: seq<byte>, off: u32, ghost t: Tree, ghost i: nat)
    returns (written: nat, panicked: bool, ghost t': Tree, ghost a: Action)
    requires OpenIn(fs, file, t, i) && off <= file.len && off + |bytes| < 0x1_0000_0000 && fs.geo.sectorsPerCluster >= 1
    requires file.start in t.chains
    requires Supply(fs.geo, fs.State().T, t.chains[file.start], Plan(fs.geo, off + |bytes|))
    modifies file`lastIndex, file`lastCluster, file`dataSector, file`dataAddress, file`len, fs, fs.table, fs.disk
    ensures panicked <==> OutcomeOf(fs.geo, old(fs.State()).T, t.chains[file.start], off + |bytes|) == Panic
    ensures written <= |bytes|
    ensures !panicked ==> OpenIn(fs, file, t', i) && Act(fs.geo, old(fs.State()), t, fs.State(), t', a)
    ensures !panicked ==> a.Fill? && a.s == file.start && a.off == off && a.bytes == bytes[..written]
  {
    hide OpenIn, Supply, Plan, OutcomeOf, Wrote, Reaches, FatFs.State, Exhausted, AsLong;
    ghost var g, v, len := fs.geo, fs.State(), file.len;
    written, panicked, t' := WriteFile(fs, file, bytes, off, t, i);
    a := Fill(file.start, file.parent, i, off, bytes[..written], len, file.len);
    if !panicked {
      WroteReaches(g, v, t, fs.State(), t', a);
    }
  }

  lemma WroteReaches(g: Geometry, v: Volume, t: Tree, w: Volume, t': Tree, a: Action)
    requires a.Fill? && Wrote(g, v, t, w, t', a.s, a.p, a.i, a.off, a.bytes, a.len, a.len')
    ensures Reaches(g, v, t, w, t')
  {
    hide Reaches, Drew, Content, Spliced, SizeChanged, SameSectors;
  }

  ghost predicate History(g: Geometry, vs: seq<Volume>, ts: seq<Tree>, acts: seq<Action>) {
    && |vs| == |ts| == |acts| + 1
    && forall i :: 0 <= i < |acts| ==> Act(g, vs[i], ts[i], vs[i + 1], ts[i + 1], acts[i])
  }

  /** How many chains a call leaves without a name. */
  function Loss(a: Action): nat {
    match a
    case Lose => 1
    case Delete(_, _, orphans) => |orphans|
    case _ => 0
  }

  function Losses(acts: seq<Action>): nat {
    if acts == [] then 0 else Losses(acts[..|acts| - 1]) + Loss(acts[|acts| - 1])
  }

  /** A call more. */
  lemma HistoryMore(g: Geometry, vs: seq<Volume>, ts: seq<Tree>, acts: seq<Action>, w: Volume, t': Tree, a: Action)
    requires History(g, vs, ts, acts) && Act(g, vs[|acts|], ts[|acts|], w, t', a)
    ensures History(g, vs + [w], ts + [t'], acts + [a]) && Losses(acts + [a]) == Losses(acts) + Loss(a)
  {
    hide Act;
    var vs', ts', acts' := vs + [w], ts + [t'], acts + [a];
    forall i | 0 <= i < |acts'| ensures Act(g, vs'[i], ts'[i], vs'[i + 1], ts'[i + 1], acts'[i]) {
      if i < |acts| {
        assert Act(g, vs[i], ts[i], vs[i + 1], ts[i + 1], acts[i]);
      }
    }
    assert acts'[..|acts|] == acts;
  }

  /** Only the loss of a cluster and the removal of what is not empty leave chains without a name. */
  lemma ActLoose(g: Geometry, v: Volume, t: Tree, w: Volume, t': Tree, a: Action)
    requires Inv(g, v, t) && Act(g, v, t, w, t', a)
    ensures |t'.loose| == |t.loose| + Loss(a)
  {
    hide Inv, Reaches, OthersKept, Spent, HasName, FirstUnused, TakenBelow, Content, Spliced, Drew, SameSectors;
    hide AllKept;
    hide Cleared, Without, OneMore, Record, WithSize, Removed;
    LooseChained(g, v, t);
    if a.Lose? {
      var c :| c !in t.chains && t' == t.(chains := t.chains[c := [c]], loose := t.loose + {c});
    }
  }

  /**
   * After every operation the invariant holds, every directory can be reached, and the nameless
   * chains are the lost clusters.
   */
  lemma {:induction false} HistoryKeeps(g: Geometry, vs: seq<Volume>, ts: seq<Tree>, acts: seq<Action>, n: nat)
    requires History(g, vs, ts, acts) && n < |vs|
    requires Inv(g, vs[0], ts[0]) && Rooted(g.rootCluster, ts[0].list)
    ensures Inv(g, vs[n], ts[n]) && Rooted(g.rootCluster, ts[n].list)
    ensures |ts[n].loose| == |ts[0].loose| + Losses(acts[..n])
  {
    hide Inv, Rooted, Act;
    if n > 0 {
      HistoryKeeps(g, vs, ts, acts, n - 1);
      var v, t, w, t', a := vs[n - 1], ts[n - 1], vs[n], ts[n], acts[n - 1];
      assert Reaches(g, v, t, w, t') by { ActReaches(g, v, t, w, t', a); }
      ReachesKeeps(g, v, t, w, t');
      ReachesRooted(g, v, t, w, t');
      ActLoose(g, v, t, w, t', a);
      assert acts[..n][..n - 1] == acts[..n - 1] && acts[..n][n - 1] == a;
    }
  }

  lemma ActReaches(g: Geometry, v: Volume, t: Tree, w: Volume, t': Tree, a: Action)
    requires Act(g, v, t, w, t', a)
    ensures Reaches(g, v, t, w, t')
  {
    hide Reaches;
  }

  /**
   * A cluster is accounted for: it is in exactly one chain, which is the root's or has exactly one
   * entry, in a directory within reach.
   */
  ghost predicate Accounted(g: Geometry, t: Tree, c: u32) {
    exists s :: s in t.chains && c in t.chains[s]
      && (forall u :: u in t.chains && c in t.chains[u] ==> u == s)
      && (s == g.rootCluster || NamedOnce(g, t, s))
  }

  ghost predicate NamedOnce(g: Geometry, t: Tree, s: u32) {
    exists d, i: nat, n: nat :: RefAt(t.list, d, i, s) && Leads(g.rootCluster, t.list, d, n)
      && forall e, j: nat :: RefAt(t.list, e, j, s) ==> e == d && j == i
  }

  lemma InOrderAccounted(g: Geometry, v: Volume, t: Tree, c: u32)
    requires Inv(g, v, t) && Rooted(g.rootCluster, t.list) && t.loose == {} && 2 <= c < |v.T|
    requires !IsFree(g.fatType, v.T, c)
    ensures Accounted(g, t, c)
  {
    hide Inv, Levels, StartCluster, IsFree, Leads;
    var s := NothingLost(g, v, t, c);
    if s != g.rootCluster {
      var d, i: nat :| RefAt(t.list, d, i, s);
      var level :| Levels(g.rootCluster, t.list, level);
      ReferencedOf(g, v, t);
      LevelLeads(g.rootCluster, t, level, d);
      assert d in level by { LevelOf(g.rootCluster, t.list, level, d); }
      assert RefAt(t.list, d, i, s) && Leads(g.rootCluster, t.list, d, level[d]);
      assert NamedOnce(g, t, s);
    }
  }

  lemma LevelOf(root: u32, list: Lists, level: map<u32, nat>, d: u32)
    requires Levels(root, list, level) && d in list
    ensures d in level
  {
  }

  lemma ReferencedOf(g: Geometry, v: Volume, t: Tree)
    requires Inv(g, v, t)
    ensures Referenced(g.rootCluster, t)
  {
  }

  /**
   * From a volume freshly formatted as FAT32, over every run of operations: the FAT is a set of
   * disjoint, end-marked chains, every directory can be reached, the chains without a name are as
   * many as the clusters lost, and if none was lost every used cluster is accounted for.
   */
  lemma NoClusterLost(sectors: seq<Sector>, total: u32, vs: seq<Volume>, ts: seq<Tree>, acts: seq<Action>, n: nat)
    requires total > 4194304 && Formatted32(sectors, Parameters32(total)) && total <= |sectors|
    requires var g := Geometry32(total);
      && g.Ok() && g.clusterBegin <= |sectors| && History(g, vs, ts, acts) && vs[0] == OnSectors(g, sectors)
      && ts[0] == FreshTree()
    requires n < |vs|
    ensures Inv(Geometry32(total), vs[n], ts[n]) && Rooted(Geometry32(total).rootCluster, ts[n].list)
    ensures |ts[n].loose| == Losses(acts[..n])
    ensures Losses(acts[..n]) == 0 ==>
              forall c: u32 :: 2 <= c < |vs[n].T| && !IsFree(FAT32, vs[n].T, c) ==>
                  Accounted(Geometry32(total), ts[n], c)
  {
    hide Formatted32, OnSectors, Inv, Geometry.Ok, Parameters32, Act, Accounted, IsFree, Rooted;
    var g := Geometry32(total);
    FreshVolume(sectors, total);
    assert g.fatType == FAT32 && g.rootCluster == 2;
    FreshRooted();
    HistoryKeeps(g, vs, ts, acts, n);
    if Losses(acts[..n]) == 0 {
      forall c: u32 | 2 <= c < |vs[n].T| && !IsFree(FAT32, vs[n].T, c) ensures Accounted(g, ts[n], c) {
        InOrderAccounted(g, vs[n], ts[n], c);
      }
    }
  }

  lemma FreshRooted()
    ensures Rooted(2, FreshTree().list) && FreshTree().loose == {}
  {
    assert Levels(2, FreshTree().list, map[2 := 0]);
  }
}
