/** Whole runs of the kernel heap: allocations, frees, and stores into allocated blocks. */
module HeapRuns {
  import opened Words
  import opened KHeap

  /** The memory, and the blocks that tile it. */
  datatype State = State(m: seq<byte>, blocks: seq<Block>)

  /** Hole i is carved, live block j is freed, or live block b is stored into. */
  datatype Use =
    | Take(i: nat, need: u32, address: u32)
    | Give(j: nat)
    | Store(b: Block)

  /** What heap_alloc and heap_free promise, and what the owner of a block may do to it. */
  ghost predicate Used(end: nat, s: State, s': State, u: Use) {
    match u
    case Take(i, need, address) =>
      Tiled(s'.m, s'.blocks, end) && AllocatedAt(s.m, s'.m, s.blocks, s'.blocks, i, need, address)
    case Give(j) =>
      Tiled(s'.m, s'.blocks, end) && FreedAt(s.m, s'.m, s.blocks, s'.blocks, j) && j < |s.blocks| && !s.blocks[j].hole
    case Store(b) =>
      && Live(s, b) && s'.blocks == s.blocks
      && AlteredOnly(s.m, s'.m, b.pos + HEADER, b.pos + b.size - FOOTER)
  }

  ghost predicate Live(s: State, b: Block) { b in s.blocks && !b.hole && b.size >= HEADER + FOOTER }

  /** The use is of another block. */
  ghost predicate Leaves(s: State, u: Use, b: Block) {
    match u
    case Take(_, _, _) => true
    case Give(j) => j < |s.blocks| && s.blocks[j] != b
    case Store(c) => c != b
  }

  ghost predicate IsUseRun(end: nat, ss: seq<State>, us: seq<Use>) {
    |ss| == |us| + 1 && forall i :: 0 <= i < |us| ==> Used(end, ss[i], ss[i + 1], us[i])
  }

  /** What the owner of a block sees of it. */
  function Payload(m: seq<byte>, b: Block): seq<byte> {
    if b.size >= HEADER + FOOTER && b.pos + b.size <= |m| then m[b.pos + HEADER..b.pos + b.size - FOOTER] else []
  }

  // ----- one use

  lemma WhereIs(s: State, b: Block) returns (k: nat)
    requires b in s.blocks
    ensures k < |s.blocks| && s.blocks[k] == b
  {
    k :| 0 <= k < |s.blocks| && s.blocks[k] == b;
  }

  /** Two blocks of the heap have no byte in common. */
  lemma Separate(m: seq<byte>, blocks: seq<Block>, end: nat, i: nat, j: nat)
    requires Tiled(m, blocks, end) && i < |blocks| && j < |blocks| && i != j
    ensures blocks[i].pos + blocks[i].size <= blocks[j].pos || blocks[j].pos + blocks[j].size <= blocks[i].pos
  {
    hide Tiled;
    if i < j {
      BlocksApart(m, blocks, end, i, j);
    } else {
      BlocksApart(m, blocks, end, j, i);
    }
  }

  /** Storing into one block leaves all tags alone. */
  lemma StoreTiled(end: nat, s: State, s': State, b: Block)
    requires Tiled(s.m, s.blocks, end) && Used(end, s, s', Store(b))
    ensures Tiled(s'.m, s'.blocks, end)
  {
    hide Header, Footer;
    var k := WhereIs(s, b);
    forall i | 0 <= i < |s.blocks| ensures Tagged(s'.m, s.blocks[i], i == |s.blocks| - 1) {
      EndsInside(s.m, s.blocks, end, i);
      if i != k {
        Separate(s.m, s.blocks, end, i, k);
      }
      TagsSame(s.m, s'.m, s.blocks[i], i == |s.blocks| - 1, b);
    }
  }

  lemma TagsSame(m: seq<byte>, m': seq<byte>, c: Block, last: bool, b: Block)
    requires b.size >= HEADER + FOOTER && (c == b || c.pos + c.size <= b.pos || b.pos + b.size <= c.pos)
    requires Tagged(m, c, last) && AlteredOnly(m, m', b.pos + HEADER, b.pos + b.size - FOOTER)
    ensures Tagged(m', c, last)
  {
    hide Header, Footer;
    HeaderKept(m, m', c.pos, c.hole, c.size);
    if !(last && c.hole) {
      FooterKept(m, m', c.pos + c.size - FOOTER, c.pos);
    }
  }

  lemma UsedTiled(end: nat, s: State, s': State, u: Use)
    requires Tiled(s.m, s.blocks, end) && Used(end, s, s', u)
    ensures Tiled(s'.m, s'.blocks, end)
  {
    hide Tiled, AllocatedAt, FreedAt, AlteredOnly;
    if u.Store? {
      StoreTiled(end, s, s', u.b);
    }
  }

  lemma NotReplaced(blocks: seq<Block>, i: nat, n: nat, put: seq<Block>, k: nat)
    requires i + n <= |blocks| && k < |blocks| && !(i <= k < i + n)
    ensures blocks[k] in Replaced(blocks, i, n, put)
  {
    assert Replaced(blocks, i, n, put)[if k < i then k else k - n + |put|] == blocks[k];
  }

  lemma PayloadOutside(m: seq<byte>, m': seq<byte>, b: Block, lo: nat, hi: nat)
    requires AlteredOnly(m, m', lo, hi) && (b.pos + b.size <= lo || hi <= b.pos)
    ensures Payload(m', b) == Payload(m, b)
  {
  }

  lemma TakeKeeps(end: nat, s: State, s': State, u: Use, k: nat)
    requires Tiled(s.m, s.blocks, end) && Used(end, s, s', u) && u.Take? && k < |s.blocks| && !s.blocks[k].hole
    ensures s.blocks[k] in s'.blocks && Payload(s'.m, s.blocks[k]) == Payload(s.m, s.blocks[k])
  {
    hide Tiled, AlteredOnly, Replaced, Payload, Carved;
    var c := s.blocks[u.i];
    Separate(s.m, s.blocks, end, u.i, k);
    NotReplaced(s.blocks, u.i, 1, Carved(c.pos, c.size, u.need), k);
    PayloadOutside(s.m, s'.m, s.blocks[k], c.pos, c.pos + c.size);
  }

  lemma GiveKeeps(end: nat, s: State, s': State, u: Use, k: nat)
    requires Tiled(s.m, s.blocks, end) && Used(end, s, s', u) && u.Give? && k < |s.blocks| && !s.blocks[k].hole
    requires k != u.j
    ensures s.blocks[k] in s'.blocks && Payload(s'.m, s.blocks[k]) == Payload(s.m, s.blocks[k])
  {
    hide Tiled, AlteredOnly, Replaced, Payload;
    var j, b := u.j, s.blocks[u.j];
    Separate(s.m, s.blocks, end, j, k);
    if j > 0 && s.blocks[j - 1].hole {
      var l := s.blocks[j - 1];
      if k < j {
        BlocksApart(s.m, s.blocks, end, k, j - 1);
      } else {
        BlocksApart(s.m, s.blocks, end, j, k);
      }
      NotReplaced(s.blocks, j - 1, 2, [Block(l.pos, l.size + b.size, true)], k);
      PayloadOutside(s.m, s'.m, s.blocks[k], l.pos, b.pos + b.size);
    } else {
      NotReplaced(s.blocks, j, 1, [Block(b.pos, b.size, true)], k);
      PayloadOutside(s.m, s'.m, s.blocks[k], b.pos, b.pos + b.size);
    }
  }

  /** What is handed out is a live block of the size asked for, tags included. */
  lemma TakeGives(end: nat, s: State, s': State, i: nat, need: u32, address: u32) returns (b: Block)
    requires Tiled(s.m, s.blocks, end) && Used(end, s, s', Take(i, need, address)) && need >= HEADER + FOOTER
    ensures Live(s', b) && address == b.pos + HEADER && need <= b.size
  {
    hide Tiled, AlteredOnly;
    var c := s.blocks[i];
    b := Carved(c.pos, c.size, need)[0];
    assert s'.blocks[i] == b;
  }

  /** A live block outlives every use of other blocks, and its payload with it. */
  lemma UsedKeeps(end: nat, s: State, s': State, u: Use, b: Block)
    requires Tiled(s.m, s.blocks, end) && Used(end, s, s', u) && Live(s, b) && Leaves(s, u, b)
    ensures Live(s', b) && Payload(s'.m, b) == Payload(s.m, b)
  {
    hide Tiled;
    var k := WhereIs(s, b);
    EndsInside(s.m, s.blocks, end, k);
    match u
    case Take(i, need, address) => TakeKeeps(end, s, s', u, k);
    case Give(j) => GiveKeeps(end, s, s', u, k);
    case Store(c) =>
      var j := WhereIs(s, c);
      Separate(s.m, s.blocks, end, j, k);
  }

  // ----- runs

  lemma {:induction false} RunTiled(end: nat, ss: seq<State>, us: seq<Use>, n: nat)
    requires IsUseRun(end, ss, us) && Tiled(ss[0].m, ss[0].blocks, end) && n < |ss|
    ensures Tiled(ss[n].m, ss[n].blocks, end)
  {
    hide Tiled, Used;
    if n > 0 {
      RunTiled(end, ss, us, n - 1);
      UsedTiled(end, ss[n - 1], ss[n], us[n - 1]);
    }
  }

  /**
   * Over every run: a block that is neither freed nor stored into stays a block, and every byte of
   * it stays what it was, whatever else is allocated, freed and stored.
   */
  lemma {:induction false} RunKeepsPayload(end: nat, ss: seq<State>, us: seq<Use>, n: nat, b: Block)
    requires IsUseRun(end, ss, us) && Tiled(ss[0].m, ss[0].blocks, end) && n < |ss| && Live(ss[0], b)
    requires forall i :: 0 <= i < n ==> Leaves(ss[i], us[i], b)
    ensures Live(ss[n], b) && Payload(ss[n].m, b) == Payload(ss[0].m, b)
  {
    hide Tiled, Used, Live, Leaves, Payload;
    if n > 0 {
      RunKeepsPayload(end, ss, us, n - 1, b);
      RunTiled(end, ss, us, n - 1);
      UsedKeeps(end, ss[n - 1], ss[n], us[n - 1], b);
    }
  }

  function Extent(blocks: seq<Block>): nat {
    if blocks == [] then 0 else Extent(blocks[..|blocks| - 1]) + blocks[|blocks| - 1].size
  }

  lemma {:induction false} RowExtent(blocks: seq<Block>, a: nat, b: nat)
    requires Row(blocks, a, b)
    ensures Extent(blocks) == b - a
  {
    var n := |blocks| - 1;
    if n > 0 {
      var front := blocks[..n];
      assert Follows(blocks, n - 1);
      forall i: nat | i + 1 < |front| ensures Follows(front, i) {
        assert Follows(blocks, i);
      }
      RowExtent(front, a, blocks[n].pos);
    } else {
      assert blocks[..0] == [];
    }
  }

  /** Over every run: live blocks and holes together are the heap, to the byte. */
  lemma RunConserves(end: nat, ss: seq<State>, us: seq<Use>, n: nat)
    requires IsUseRun(end, ss, us) && Tiled(ss[0].m, ss[0].blocks, end) && n < |ss|
    ensures Extent(ss[n].blocks) == end - START
  {
    hide Used;
    RunTiled(end, ss, us, n);
    RowExtent(ss[n].blocks, START, end);
  }

  // ----- the methods

  ghost function Now(h: Heap): State
    reads h, h.memory
  {
    State(h.memory[..], h.blocks)
  }

  /** heap_alloc is a Take, or changes nothing. */
  method CallAlloc(h: Heap, size: u32) returns (ok: bool, address: u32, ghost u: Use)
    requires h.Valid() && size + HEADER + FOOTER < 0x1_0000_0000
    modifies h`blocks, h.memory, h.index, h.index.items
    ensures h.Valid() && (ok <==> Fits(old(h.blocks), size + HEADER + FOOTER))
    ensures ok ==> u.Take? && u.address == address && Used(h.end, old(Now(h)), Now(h), u)
    ensures !ok ==> Now(h) == old(Now(h))
  {
    hide Tiled, Fits, Indexed, AllocatedAt;
    ghost var i;
    ok, address, i := h.Alloc(size);
    u := Take(i, size + HEADER + FOOTER, address);
  }

  /** heap_free of a block is a Give. */
  method CallFree(h: Heap, p: u32, ghost j: nat) returns (ghost u: Use)
    requires h.Valid() && p != 0
    requires j + 1 < |h.blocks| && !h.blocks[j].hole && !h.blocks[j + 1].hole && p == h.blocks[j].pos + HEADER
    modifies h`blocks, h.memory, h.index, h.index.items
    ensures h.Valid() && u == Give(j) && Used(h.end, old(Now(h)), Now(h), u)
  {
    hide Tiled, Indexed, FreedAt;
    h.Free(p, j);
    u := Give(j);
  }

  // ----- which hole is taken

  /** One block behind another, and the big hole behind them. */
  lemma NextTaken(blocks: seq<Block>, blocks': seq<Block>, m: seq<byte>, m': seq<byte>, i: nat, address: u32, n: nat,
      size: nat)
    requires n < |blocks| && |blocks| == n + 1 && blocks[n] == Block(8 + 120 * n, size, true) && size >= 140
    requires forall k :: 0 <= k < n ==> blocks[k] == Block(8 + 120 * k, 120, false)
    requires AllocatedAt(m, m', blocks, blocks', i, 120, address)
    ensures |blocks'| == n + 2 && blocks'[n + 1] == Block(128 + 120 * n, size - 120, true)
    ensures forall k :: 0 <= k < n + 1 ==> blocks'[k] == Block(8 + 120 * k, 120, false)
    ensures address == 20 + 120 * n
  {
    hide AlteredOnly;
    assert i == n;
  }

  lemma OneHole(idx: seq<u32>, blocks: seq<Block>, n: nat)
    requires Indexed(idx, blocks) && |blocks| == n + 1 && blocks[n].hole && blocks[n].pos < 0x1_0000_0000
    requires forall k :: 0 <= k < n ==> !blocks[k].hole
    ensures idx == [blocks[n].pos]
  {
    NoHoles(blocks[..n]);
    assert blocks == blocks[..n] + [blocks[n]];
    assert Holes(blocks) == Holes(blocks[..n]) + HoleOf(blocks[n]);
    assert |multiset(idx)| == |idx|;
    assert idx[0] in multiset(idx);
  }

  lemma {:induction false} NoHoles(blocks: seq<Block>)
    requires forall k :: 0 <= k < |blocks| ==> !blocks[k].hole
    ensures Holes(blocks) == []
  {
    if blocks != [] {
      NoHoles(blocks[..|blocks| - 1]);
    }
  }

  lemma LastFits(blocks: seq<Block>, n: nat, need: nat)
    requires n < |blocks| && blocks[n].hole && blocks[n].size >= need
    ensures Fits(blocks, need)
  {
  }

  /** The second of three blocks is freed: its hole comes before the bigger one in the index. */
  lemma SecondFreed(blocks: seq<Block>, blocks': seq<Block>, m: seq<byte>, m': seq<byte>, end: nat, idx: seq<u32>,
      idx': seq<u32>)
    requires |blocks| == 4 && blocks[3] == Block(368, 3736, true) && idx == [368]
    requires forall k :: 0 <= k < 3 ==> blocks[k] == Block(8 + 120 * k, 120, false)
    requires FreedAt(m, m', blocks, blocks', 1) && Filed(m', idx, idx', 128) && Tiled(m', blocks', end)
    ensures |blocks'| == 4 && blocks'[1] == Block(128, 120, true) && idx' == [128, 368]
    ensures blocks'[0] == blocks[0] && blocks'[3] == blocks[3] && SizeAt(m', 128) == 120 && SizeAt(m', 368) == 3736
  {
    hide AlteredOnly, Tiled, SizeAt;
    SizeOfTag(m', blocks', end, 1);
    SizeOfTag(m', blocks', end, 3);
    assert idx[0] == 368 && SizeAt(m', idx[0]) >= SizeAt(m', 128);
    var p: nat :| FiledAt(m', idx, idx', 128, p);
  }

  lemma SecondTaken(m: seq<byte>, m': seq<byte>, idx: seq<u32>, idx': seq<u32>, b: Block)
    requires Chosen(m, m', idx, idx', b, 70) && idx == [128, 368] && SizeAt(m, 128) == 120
    ensures b.pos == 128
  {
    hide SizeAt, Filed;
    assert idx[0] == 128 && SizeAt(m, idx[0]) >= 70;
    var k: nat :| ChosenAt(m, m', idx, idx', b, 70, k);
  }

  /** A fresh heap, three blocks of 120 bytes, and the second one freed. */
  method ThreeBlocks() returns (h: Heap, a0: u32)
    ensures h.Valid() && fresh(h) && fresh(h.memory) && fresh(h.index) && fresh(h.index.items)
    ensures a0 == 20 && h.index.Contents() == [128, 368] && SizeAt(h.memory[..], 128) == 120
    ensures |h.blocks| == 4 && h.blocks[0] == Block(8, 120, false) && h.blocks[1] == Block(128, 120, true)
  {
    hide Tiled, Indexed, AllocatedAt, FreedAt, Fits, Chosen, Filed, SizeAt;
    h := new Heap(4104, 4104, 1000);
    var ok, a1, a2;
    ghost var i;
    ghost var b0, m0 := h.blocks, h.memory[..];
    LastFits(b0, 0, 120);
    ok, a0, i := h.Alloc(100);
    ghost var b1, m1 := h.blocks, h.memory[..];
    NextTaken(b0, b1, m0, m1, i, a0, 0, 4096);
    LastFits(b1, 1, 120);
    ok, a1, i := h.Alloc(100);
    ghost var b2, m2 := h.blocks, h.memory[..];
    NextTaken(b1, b2, m1, m2, i, a1, 1, 3976);
    LastFits(b2, 2, 120);
    ok, a2, i := h.Alloc(100);
    ghost var b3, m3, idx := h.blocks, h.memory[..], h.index.Contents();
    NextTaken(b2, b3, m2, m3, i, a2, 2, 3856);
    OneHole(idx, b3, 3);
    h.Free(a1, 1);
    SecondFreed(b3, h.blocks, m3, h.memory[..], h.end, idx, h.index.Contents());
  }

  /** Of the holes that fit, the first of the index is taken: the second of three blocks, freed, is used again. */
  method UseAgain() returns (address: u32)
    ensures address == 140
  {
    hide Tiled, Indexed, AllocatedAt, Fits, Chosen, Filed, SizeAt;
    var h, _ := ThreeBlocks();
    ghost var b4, m4, idx4 := h.blocks, h.memory[..], h.index.Contents();
    LastFits(b4, 1, 70);
    var ok;
    ghost var i;
    ok, address, i := h.Alloc(50);
    SecondTaken(m4, h.memory[..], idx4, h.index.Contents(), b4[i]);
    AddressOf(m4, h.memory[..], b4, h.blocks, i, 70, address);
  }

  /**
   * Freeing the first of them too joins it with the hole of the second, and breaks the heap: no blocks
   * tile it any more.
   */
  method FreeBefore() returns (h: Heap)
    ensures !h.Valid() && forall blocks :: !Tiled(h.memory[..], blocks, h.end)
  {
    hide Tiled, Indexed, Stale, FreedAt, Filed, SizeAt, Row;
    var a0;
    h, a0 := ThreeBlocks();
    ghost var was, m := h.blocks, h.memory[..];
    h.Free(a0, 0);
    Untiled(m, h.memory[..], was, h.blocks, 0, h.end);
  }

  lemma Untiled(m: seq<byte>, m': seq<byte>, blocks: seq<Block>, blocks': seq<Block>, j: nat, end: nat)
    requires JoinedAt(m, m', blocks, blocks', j, end)
    ensures forall other :: !Tiled(m', other, end)
  {
    hide Stale, Tiled;
    forall other ensures !Tiled(m', other, end) {
      StaleBroken(m', blocks', end, First(blocks, j), blocks[j + 1].pos, other);
    }
  }

  lemma AddressOf(m: seq<byte>, m': seq<byte>, blocks: seq<Block>, blocks': seq<Block>, i: nat, need: nat, address: u32)
    requires AllocatedAt(m, m', blocks, blocks', i, need, address)
    ensures address == blocks[i].pos + 12
  {
    hide AlteredOnly;
  }
}
