/** The FAT as a table of links: cluster chains, free clusters, and what the walks over it do. */
module Chains {
  import opened Words
  import opened Layout

  predicate IsFree(ty: FatType, T: seq<u32>, c: int)
    requires 0 <= c < |T|
  {
    Masked(ty, T[c]) == 0
  }

  /** An entry is free when its link bits are zero: the low 28 of FAT32, all 16 of FAT16. */
  lemma FreeExactly(T: seq<u32>, c: nat)
    requires c < |T|
    ensures IsFree(FAT32, T, c) <==> T[c] % 0x1000_0000 == 0
    ensures T[c] < 0x1_0000 ==> (IsFree(FAT16, T, c) <==> T[c] == 0)
  {
  }

  /** Every link stays in the table or ends the chain. */
  ghost predicate LinksInRange(ty: FatType, T: seq<u32>) {
    forall c :: 0 <= c < |T| ==> Link(ty, T[c]) == LAST_CLUSTER || Link(ty, T[c]) < |T|
  }

  /** A cluster number that an entry can hold without being read as free or as an end. */
  predicate Linkable(ty: FatType, c: int) {
    2 <= c < if ty == FAT16 then 0xFFF8 else 0x0FFF_FFF8
  }

  /** ch is a whole chain: from its first cluster the links lead through it and then end. */
  ghost predicate IsChain(ty: FatType, T: seq<u32>, ch: seq<u32>) {
    && 1 <= |ch|
    && (forall i :: 0 <= i < |ch| ==> ch[i] < |T| && Linkable(ty, ch[i]))
    && (forall i, j :: 0 <= i < j < |ch| ==> ch[i] != ch[j])
    && (forall i :: 0 <= i < |ch| - 1 ==> Link(ty, T[ch[i]]) == ch[i + 1])
    && Link(ty, T[ch[|ch| - 1]]) == LAST_CLUSTER
  }

  lemma StoredLink(ty: FatType, c: u32)
    ensures Linkable(ty, c) ==> Link(ty, Stored(ty, c)) == c
    ensures Link(ty, Stored(ty, LAST_CLUSTER)) == LAST_CLUSTER
    ensures Masked(ty, Stored(ty, LAST_CLUSTER)) != 0
    ensures Linkable(ty, c) ==> Masked(ty, Stored(ty, c)) != 0
    ensures Stored(ty, 0) == 0 && Masked(ty, 0) == 0 && Link(ty, 0) == 0
  {
  }

  // ----- free clusters

  /** The free clusters in [a, b), in ascending order. */
  function FreeIn(ty: FatType, T: seq<u32>, a: nat, b: nat): (r: seq<u32>)
    requires a <= b <= |T| < 0x1_0000_0000
    decreases b - a
  {
    if a == b then []
    else if IsFree(ty, T, a) then [a as u32] + FreeIn(ty, T, a + 1, b)
    else FreeIn(ty, T, a + 1, b)
  }

  lemma FreeInMembers(ty: FatType, T: seq<u32>, a: nat, b: nat)
    requires a <= b <= |T| < 0x1_0000_0000
    ensures forall i :: 0 <= i < |FreeIn(ty, T, a, b)| ==>
            a <= FreeIn(ty, T, a, b)[i] < b && IsFree(ty, T, FreeIn(ty, T, a, b)[i])
    ensures forall i, j :: 0 <= i < j < |FreeIn(ty, T, a, b)| ==> FreeIn(ty, T, a, b)[i] < FreeIn(ty, T, a, b)[j]
    ensures forall c :: a <= c < b && IsFree(ty, T, c) ==> c in FreeIn(ty, T, a, b)
    decreases b - a
  {
    if a < b {
      FreeInMembers(ty, T, a + 1, b);
    }
  }

  lemma FreeInSplit(ty: FatType, T: seq<u32>, a: nat, m: nat, b: nat)
    requires a <= m <= b <= |T| < 0x1_0000_0000
    ensures FreeIn(ty, T, a, b) == FreeIn(ty, T, a, m) + FreeIn(ty, T, m, b)
    decreases m - a
  {
    if a < m {
      FreeInSplit(ty, T, a + 1, m, b);
    }
  }

  /** Nothing free in [a, c), c free: c heads the list. */
  lemma FreeInFirst(ty: FatType, T: seq<u32>, a: nat, c: nat, b: nat)
    requires a <= c < b <= |T| < 0x1_0000_0000
    requires IsFree(ty, T, c) && forall d :: a <= d < c ==> !IsFree(ty, T, d)
    ensures FreeIn(ty, T, a, b) == [c as u32] + FreeIn(ty, T, c + 1, b)
    decreases c - a
  {
    if a < c {
      FreeInFirst(ty, T, a + 1, c, b);
    }
  }

  lemma FreeInNone(ty: FatType, T: seq<u32>, a: nat, b: nat)
    requires a <= b <= |T| < 0x1_0000_0000
    requires forall d :: a <= d < b ==> !IsFree(ty, T, d)
    ensures FreeIn(ty, T, a, b) == []
    decreases b - a
  {
    if a < b {
      FreeInNone(ty, T, a + 1, b);
    }
  }

  /** The list depends only on which entries are free. */
  lemma FreeInSame(ty: FatType, T: seq<u32>, U: seq<u32>, a: nat, b: nat)
    requires a <= b <= |T| < 0x1_0000_0000 && |U| == |T|
    requires forall d :: a <= d < b ==> (IsFree(ty, T, d) <==> IsFree(ty, U, d))
    ensures FreeIn(ty, T, a, b) == FreeIn(ty, U, a, b)
    decreases b - a
  {
    if a < b {
      FreeInSame(ty, T, U, a + 1, b);
    }
  }

  // ----- appending

  /** T after the clusters of add are linked one by one behind tail. */
  function Appended(ty: FatType, T: seq<u32>, tail: u32, add: seq<u32>): (r: seq<u32>)
    requires tail < |T| && forall i :: 0 <= i < |add| ==> add[i] < |T|
    ensures |r| == |T|
    decreases |add|
  {
    if add == [] then T
    else Appended(ty, T[tail := Stored(ty, add[0])][add[0] := Stored(ty, LAST_CLUSTER)], add[0], add[1..])
  }

  lemma AppendedOne(ty: FatType, T: seq<u32>, tail: u32, c: u32)
    requires tail < |T| && c < |T|
    ensures Appended(ty, T, tail, [c]) == T[tail := Stored(ty, c)][c := Stored(ty, LAST_CLUSTER)]
  {
    var U := T[tail := Stored(ty, c)][c := Stored(ty, LAST_CLUSTER)];
    assert Appended(ty, U, c, []) == U;
    assert [c][1..] == [];
  }

  /** One more cluster behind the tail of a chain gives the longer chain. */
  lemma ChainGrows(ty: FatType, T: seq<u32>, ch: seq<u32>, c: u32)
    requires IsChain(ty, T, ch) && c < |T| && c !in ch && Linkable(ty, c)
    ensures IsChain(ty, T[ch[|ch| - 1] := Stored(ty, c)][c := Stored(ty, LAST_CLUSTER)], ch + [c])
  {
    StoredLink(ty, c);
    var ch' := ch + [c];
    var U := T[ch[|ch| - 1] := Stored(ty, c)][c := Stored(ty, LAST_CLUSTER)];
    forall i | 0 <= i < |ch'| - 1 ensures Link(ty, U[ch'[i]]) == ch'[i + 1] {
      if i < |ch| - 1 {
        assert U[ch[i]] == T[ch[i]];
      }
    }
  }

  /** A chain is not disturbed by changes outside it. */
  lemma ChainKept(ty: FatType, T: seq<u32>, U: seq<u32>, ch: seq<u32>)
    requires IsChain(ty, T, ch) && |U| == |T|
    requires forall i :: 0 <= i < |ch| ==> U[ch[i]] == T[ch[i]]
    ensures IsChain(ty, U, ch)
  {
  }

  lemma {:induction false} AppendedChain(ty: FatType, T: seq<u32>, ch: seq<u32>, add: seq<u32>)
    requires IsChain(ty, T, ch)
    requires forall i :: 0 <= i < |add| ==> add[i] < |T| && Linkable(ty, add[i]) && add[i] !in ch
    requires forall i, j :: 0 <= i < j < |add| ==> add[i] != add[j]
    ensures IsChain(ty, Appended(ty, T, ch[|ch| - 1], add), ch + add)
    ensures forall c :: 0 <= c < |T| && c !in add && c != ch[|ch| - 1] ==> Appended(ty, T, ch[|ch| - 1], add)[c] == T[c]
    decreases |add|
  {
    if add == [] {
      assert ch + add == ch;
    } else {
      var c := add[0];
      assert |ch| >= 1 && ch[|ch| - 1] < |T|;
      hide IsChain, Link, Stored, Masked;
      ChainGrows(ty, T, ch, c);
      var U := T[ch[|ch| - 1] := Stored(ty, c)][c := Stored(ty, LAST_CLUSTER)];
      AppendedChain(ty, U, ch + [c], add[1..]);
      assert ch + add == ch + [c] + add[1..];
      assert forall d :: d in add[1..] ==> d in add;
    }
  }

  // ----- freeing

  /** The number of entries that read as raw zero. */
  function ZeroCount(T: seq<u32>): nat {
    if T == [] then 0 else ZeroCount(T[..|T| - 1]) + if T[|T| - 1] == 0 then 1 else 0
  }

  lemma {:induction false} ZeroCountIs(T: seq<u32>)
    ensures ZeroCount(T) == |Zeros(T)|
  {
    if T != [] {
      var n := |T| - 1;
      ZeroCountIs(T[..n]);
      assert Zeros(T) == if T[n] == 0 then Zeros(T[..n]) + {n} else Zeros(T[..n]);
    }
  }

  /** The entries that are raw zero. */
  function Zeros(T: seq<u32>): set<nat> { set c: nat | c < |T| && T[c] == 0 }

  lemma ZeroCountBound(T: seq<u32>)
    ensures ZeroCount(T) <= |T|
  {
  }

  lemma ZeroCountUpdate(T: seq<u32>, c: nat)
    requires c < |T|
    ensures ZeroCount(T[c := 0]) == ZeroCount(T) + if T[c] == 0 then 0 else 1
  {
    var n := |T| - 1;
    if c == n {
      assert T[c := 0][..n] == T[..n];
    } else {
      assert T[c := 0][..n] == T[..n][c := 0];
      ZeroCountUpdate(T[..n], c);
    }
  }

  /** What fatfs_free_cluster_chain leaves behind, on any table whose links are in range. */
  function Freed(ty: FatType, T: seq<u32>, c: u32): (r: seq<u32>)
    requires LinksInRange(ty, T) && (c == LAST_CLUSTER || c < |T|)
    ensures |r| == |T|
    decreases |T| - ZeroCount(T), if c == LAST_CLUSTER || c == 0 then 0 else 1
  {
    if c == LAST_CLUSTER || c == 0 then T
    else
      ZeroCountUpdate(T, c);
      ZeroCountBound(T[c := 0]);
      Freed(ty, T[c := 0], Link(ty, T[c]))
  }

  /** One turn of the freeing loop. */
  lemma FreedStep(ty: FatType, T: seq<u32>, c: u32)
    requires LinksInRange(ty, T) && c < |T| < 0x1000_0000 && c != 0
    ensures LinksInRange(ty, T[c := 0]) && (Link(ty, T[c]) == LAST_CLUSTER || Link(ty, T[c]) < |T|)
    ensures Freed(ty, T[c := 0], Link(ty, T[c])) == Freed(ty, T, c)
    ensures ZeroCount(T) <= ZeroCount(T[c := 0]) <= |T|
    ensures ZeroCount(T) == ZeroCount(T[c := 0]) ==> Link(ty, T[c]) == 0
  {
    StoredLink(ty, 0);
    ZeroCountUpdate(T, c);
    ZeroCountBound(T[c := 0]);
  }

  lemma FreedEnd(ty: FatType, T: seq<u32>, c: u32)
    requires LinksInRange(ty, T) && (c == LAST_CLUSTER || c == 0 < |T| < 0x1000_0000)
    ensures Freed(ty, T, c) == T
  {
  }

  /** T with the entries of ch zeroed. */
  function Cleared(T: seq<u32>, ch: seq<u32>): (r: seq<u32>)
    ensures |r| == |T|
    ensures forall c :: 0 <= c < |T| ==> r[c] == if c in ch then 0 else T[c]
  {
    seq(|T|, c requires 0 <= c < |T| => if c in ch then 0 else T[c])
  }

  /** On a whole chain, freeing zeroes exactly that chain and frees as many entries as it is long. */
  lemma {:induction false} FreedChain(ty: FatType, T: seq<u32>, ch: seq<u32>)
    requires LinksInRange(ty, T) && IsChain(ty, T, ch)
    ensures Freed(ty, T, ch[0]) == Cleared(T, ch)
    ensures ZeroCount(Cleared(T, ch)) == ZeroCount(T) + |ch|
    decreases |ch|
  {
    var c := ch[0];
    var U := T[c := 0];
    StoredLink(ty, 0);
    ZeroCountUpdate(T, c);
    assert Link(ty, T[c]) == if |ch| == 1 then LAST_CLUSTER else ch[1];
    assert LinksInRange(ty, U);
    if |ch| == 1 {
      assert Freed(ty, T, c) == Freed(ty, U, LAST_CLUSTER) == U;
      assert U == Cleared(T, ch);
    } else {
      var rest := ch[1..];
      TailIsChain(ty, T, ch);
      FreedChain(ty, U, rest);
      ClearedTail(T, ch);
    }
  }

  lemma TailIsChain(ty: FatType, T: seq<u32>, ch: seq<u32>)
    requires LinksInRange(ty, T) && IsChain(ty, T, ch) && |ch| > 1
    ensures LinksInRange(ty, T[ch[0] := 0]) && IsChain(ty, T[ch[0] := 0], ch[1..])
  {
    var rest, U := ch[1..], T[ch[0] := 0];
    StoredLink(ty, 0);
    forall i | 0 <= i < |rest| ensures U[rest[i]] == T[rest[i]] {
      assert rest[i] == ch[i + 1];
    }
    forall i | 0 <= i < |rest| - 1 ensures Link(ty, U[rest[i]]) == rest[i + 1] {
      assert rest[i] == ch[i + 1] && rest[i + 1] == ch[i + 2];
    }
  }

  lemma ClearedTail(T: seq<u32>, ch: seq<u32>)
    requires |ch| >= 1 && ch[0] < |T|
    ensures Cleared(T[ch[0] := 0], ch[1..]) == Cleared(T, ch)
  {
    assert ch == [ch[0]] + ch[1..];
  }
}
