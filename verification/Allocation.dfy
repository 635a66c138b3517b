/** Cluster allocation: growing a chain and starting a new one. */
module Allocation {
  import opened Words
  import opened Layout
  import opened Chains
  import opened Access
  import Arith

  /** The free clusters in the order in which the driver hands them out. */
  function Free(g: Geometry, T: seq<u32>): seq<u32> {
    if g.rootCluster <= |T| < 0x1000_0000 then FreeIn(g.fatType, T, g.rootCluster, |T|) else []
  }

  /** They are the free ones from the root directory's cluster on, in ascending order. */
  lemma FreeIs(g: Geometry, T: seq<u32>)
    requires g.rootCluster <= |T| < 0x1000_0000
    ensures forall c :: c in Free(g, T) <==> g.rootCluster <= c < |T| && IsFree(g.fatType, T, c)
    ensures forall i, j :: 0 <= i < j < |Free(g, T)| ==> Free(g, T)[i] < Free(g, T)[j]
  {
    hide FreeIn, IsFree;
    FreeInMembers(g.fatType, T, g.rootCluster, |T|);
  }

  /** The next cluster that would be handed out, if any, has data sectors. */
  ghost predicate Usable(g: Geometry, T: seq<u32>) {
    Free(g, T) == [] || 2 <= Free(g, T)[0] < g.Limit()
  }

  /** Linking the least free cluster behind a used one takes it off the list. */
  lemma FreeAfterLink(ty: FatType, T: seq<u32>, a: nat, tail: u32, F: seq<u32>)
    requires a <= |T| < 0x1000_0000 && tail < |T| && !IsFree(ty, T, tail)
    requires F == FreeIn(ty, T, a, |T|) && F != [] && Linkable(ty, F[0])
    ensures F[0] < |T|
    ensures FreeIn(ty, T[tail := Stored(ty, F[0])][F[0] := Stored(ty, LAST_CLUSTER)], a, |T|) == F[1..]
    ensures !IsFree(ty, T[tail := Stored(ty, F[0])][F[0] := Stored(ty, LAST_CLUSTER)], F[0])
  {
    var c := F[0];
    StoredLink(ty, c);
    FreeInMembers(ty, T, a, |T|);
    var U := T[tail := Stored(ty, c)][c := Stored(ty, LAST_CLUSTER)];
    FreeAfterUse(ty, T, a, U, F);
  }

  /** The list after its head is taken and nothing else changes between free and used. */
  lemma FreeAfterUse(ty: FatType, T: seq<u32>, a: nat, U: seq<u32>, F: seq<u32>)
    requires a <= |T| < 0x1000_0000 && |U| == |T|
    requires F == FreeIn(ty, T, a, |T|) && F != []
    requires a <= F[0] < |T| && IsFree(ty, T, F[0]) && !IsFree(ty, U, F[0])
    requires forall d :: a <= d < |T| && d != F[0] ==> (IsFree(ty, U, d) <==> IsFree(ty, T, d))
    ensures FreeIn(ty, U, a, |T|) == F[1..]
  {
    var c := F[0];
    hide IsFree;
    FreeInSplit(ty, T, a, c, |T|);
    FreeInMembers(ty, T, a, c);
    assert FreeIn(ty, T, a, c) == [];
    FreeInFirst(ty, T, a, c, |T|);
    FreeInNone(ty, U, a, c + 1);
    FreeInSplit(ty, U, a, c + 1, |T|);
    FreeInSame(ty, T, U, c + 1, |T|);
  }

  /** Appending one more cluster at the end. */
  lemma AppendedMore(ty: FatType, T: seq<u32>, tail: u32, add: seq<u32>, c: u32)
    requires tail < |T| && c < |T| && forall i :: 0 <= i < |add| ==> add[i] < |T|
    ensures var last := if add == [] then tail else add[|add| - 1];
            Appended(ty, T, tail, add + [c]) ==
              Appended(ty, T, tail, add)[last := Stored(ty, c)][c := Stored(ty, LAST_CLUSTER)]
    decreases |add|
  {
    if add == [] {
      AppendedOne(ty, T, tail, c);
      assert add + [c] == [c];
    } else {
      var U := T[tail := Stored(ty, add[0])][add[0] := Stored(ty, LAST_CLUSTER)];
      AppendedMore(ty, U, add[0], add[1..], c);
      assert (add + [c])[1..] == add[1..] + [c];
    }
  }

  /** From T to U the clusters were linked, in order, behind start. */
  ghost predicate Grown(ty: FatType, T: seq<u32>, U: seq<u32>, start: u32, clusters: seq<u32>) {
    && start < |T|
    && (forall i :: 0 <= i < |clusters| ==> clusters[i] < |T|)
    && U == Appended(ty, T, start, clusters)
  }

  lemma GrownMore(g: Geometry, T: seq<u32>, U: seq<u32>, start: u32, F: seq<u32>, i: nat, tail: u32)
    requires g.rootCluster <= |T| < 0x1000_0000 && F == Free(g, T) && i < |F| && Linkable(g.fatType, F[i])
    requires Grown(g.fatType, T, U, start, F[..i]) && Free(g, U) == F[i..]
    requires tail == (if i == 0 then start else F[i - 1]) && tail < |U| == |T| && !IsFree(g.fatType, U, tail)
    ensures F[i] < |U|
    ensures var W := U[tail := Stored(g.fatType, F[i])][F[i] := Stored(g.fatType, LAST_CLUSTER)];
      Grown(g.fatType, T, W, start, F[..i + 1]) && Free(g, W) == F[i + 1..] && !IsFree(g.fatType, W, F[i])
  {
    hide FreeIn, IsFree, Stored, Linkable, Appended;
    FreeInMembers(g.fatType, T, g.rootCluster, |T|);
    FreeAfterLink(g.fatType, U, g.rootCluster, tail, F[i..]);
    AppendedMore(g.fatType, T, start, F[..i], F[i]);
    assert F[..i + 1] == F[..i] + [F[i]] && F[i..][1..] == F[i + 1..];
  }

  lemma GrownNone(fs: FatFs, start: u32, F: seq<u32>)
    requires fs.Valid() && start < |fs.table.T|
    ensures fs.geo.rootCluster <= |fs.table.T| < 0x1000_0000
    ensures Grown(fs.geo.fatType, fs.table.T, fs.table.T, start, F[..0])
  {
  }

  /**
   * fatfs_add_free_space: link the least free clusters, one after another, behind start.
   * On shortage every free cluster is linked and the answer is false.  F lists the free
   * clusters at the call.
   */
  method AddFreeSpace(fs: FatFs, start: u32, clusters: nat, ghost F: seq<u32>) returns (ok: bool, first: u32)
    requires fs.Valid() && start < |fs.table.T| && F == Free(fs.geo, fs.table.T)
    requires !IsFree(fs.geo.fatType, fs.table.T, start)
    requires forall i :: 0 <= i < clusters && i < |F| ==> Linkable(fs.geo.fatType, F[i])
    modifies fs.table, fs.disk
    ensures fs.Valid()
    ensures ok <==> clusters <= |F|
    ensures Grown(fs.geo.fatType, old(fs.table.T), fs.table.T, start, F[..if ok then clusters else |F|])
    ensures Free(fs.geo, fs.table.T) == F[if ok then clusters else |F|..]
    ensures first == if clusters == 0 || F == [] then start else F[0]
  {
    hide FatFs.Valid, IsFree, Stored, Linkable, Grown, Free, Appended;
    ghost var T0 := fs.table.T;
    GrownNone(fs, start, F);
    fs.ForgetNextFree();
    first, ok := start, true;
    var tail: u32 := start;
    var i := 0;
    while i < clusters && ok
      invariant i <= clusters && i <= |F| && fs.Valid()
      invariant |fs.table.T| == |T0| && Grown(fs.geo.fatType, T0, fs.table.T, start, F[..i])
      invariant Free(fs.geo, fs.table.T) == F[i..]
      invariant tail == (if i == 0 then start else F[i - 1]) && tail < |T0| && !IsFree(fs.geo.fatType, fs.table.T, tail)
      invariant first == if i == 0 then start else F[0]
      invariant !ok ==> i == |F| < clusters
      decreases clusters - i, ok
    {
      var next;
      ok, next := FindFree(fs);
      if ok {
        GrownMore(fs.geo, T0, fs.table.T, start, F, i, tail);
        fs.SetCluster(tail, next);
        fs.SetCluster(next, LAST_CLUSTER);
        tail := next;
        if i == 0 {
          first := next;
        }
        i := i + 1;
      }
    }
    assert F[..i] == F[..if ok then clusters else |F|];
  }

  /** fatfs_find_blank_cluster from the root directory's first cluster on. */
  method FindFree(fs: FatFs) returns (ok: bool, cluster: u32)
    requires fs.Valid()
    modifies fs.table, fs.disk
    ensures fs.Valid() && fs.State() == old(fs.State())
    ensures ok <==> Free(fs.geo, fs.table.T) != []
    ensures ok ==>
              && cluster < |fs.table.T| && IsFree(fs.geo.fatType, fs.table.T, cluster)
              && cluster == Free(fs.geo, fs.table.T)[0]
  {
    ok, cluster := fs.FindBlankCluster(fs.geo.rootCluster);
  }

  /** The cluster count of fatfs_allocate_free_space. */
  method ClusterCount(size: u32, clusterSize: nat) returns (count: nat)
    requires 0 < size && 0 < clusterSize
    ensures (count - 1) * clusterSize < size <= count * clusterSize
    ensures size <= clusterSize ==> count == 1
  {
    count := size / clusterSize;
    Arith.CellOf(size, clusterSize);
    if size < clusterSize {
      Arith.CellUnique(count, size % clusterSize, 0, size, clusterSize);
    } else if size == clusterSize {
      Arith.CellUnique(count, size % clusterSize, 1, 0, clusterSize);
    }
    if size - clusterSize * count != 0 {
      count := count + 1;
    }
  }

  /**
   * fatfs_allocate_free_space for a new file of at most one cluster; fatfs.c has the same
   * function again as _allocate_free_space.
   */
  method AllocateNew(fs: FatFs, size: u32) returns (ok: bool, cluster: u32)
    requires fs.Valid() && size <= fs.geo.sectorsPerCluster * SECTOR_SIZE
    modifies fs.table, fs.disk
    ensures fs.Valid()
    ensures ok <==> size != 0 && old(Free(fs.geo, fs.table.T)) != []
    ensures !ok ==> fs.table.T == old(fs.table.T)
    ensures ok ==> cluster < |old(fs.table.T)| && cluster == old(Free(fs.geo, fs.table.T))[0]
    ensures ok ==> fs.table.T == old(fs.table.T)[cluster := Stored(fs.geo.fatType, LAST_CLUSTER)]
  {
    if size == 0 {
      return false, 0;
    }
    hide FatFs.Valid, Stored, IsFree, Free;
    fs.ForgetNextFree();
    var clusterCount := ClusterCount(size, fs.geo.sectorsPerCluster * SECTOR_SIZE);
    ok, cluster := FindFree(fs);
    if ok {
      assert clusterCount == 1;
      fs.SetCluster(cluster, LAST_CLUSTER);
    }
  }
}
