/**
 * The kernel heap: headers and footers inside the managed memory, and an index of the
 * holes beside it: kernel/memory/kheap.c.  Addresses count from eight bytes before the
 * start of the heap; those eight bytes are what heap_free looks at in front of the first
 * block.
 */
module KHeap {
  import opened Words
  import opened OrderedArrays

  const HEAP_MAGIC: u32 := 0x1238_90AB
  const HEADER := 12  // sizeof(header_t): magic, is_hole with three bytes of padding, size
  const FOOTER := 8   // sizeof(footer_t): magic, header
  const START := 8

  datatype Block = Block(pos: nat, size: nat, hole: bool)

  // ----- tags in memory

  ghost predicate Header(m: seq<byte>, p: nat, hole: bool, size: nat) {
    p + HEADER <= |m| && Get32(m, p) == HEAP_MAGIC && m[p + 4] == (if hole then 1 else 0) && Get32(m, p + 8) == size
  }

  ghost predicate Footer(m: seq<byte>, q: nat, head: nat) {
    q + FOOTER <= |m| && Get32(m, q) == HEAP_MAGIC && Get32(m, q + 4) == head
  }

  /** The twelve bytes of a header and the eight of a footer. */
  lemma TagBytes(m: seq<byte>, p: nat, hole: bool, size: u32, head: u32)
    ensures Header(m, p, hole, size) <==>
      && p + 12 <= |m| && m[p] == 0xAB && m[p + 1] == 0x90 && m[p + 2] == 0x38 && m[p + 3] == 0x12
      && m[p + 4] == (if hole then 1 else 0)
      && m[p + 8] as int + 0x100 * m[p + 9] as int + 0x1_0000 * m[p + 10] as int + 0x100_0000 * m[p + 11] as int == size
    ensures Footer(m, p, head) <==>
      && p + 8 <= |m| && m[p] == 0xAB && m[p + 1] == 0x90 && m[p + 2] == 0x38 && m[p + 3] == 0x12
      && m[p + 4] as int + 0x100 * m[p + 5] as int + 0x1_0000 * m[p + 6] as int + 0x100_0000 * m[p + 7] as int == head
  {
    MagicBytes(m, p);
    LowByteFirst(m, p + 4);
    LowByteFirst(m, p + 8);
    hide Get32;
  }

  lemma MagicBytes(m: seq<byte>, p: nat)
    ensures p + 4 <= |m| ==>
      (Get32(m, p) == 0x1238_90AB <==> m[p] == 0xAB && m[p + 1] == 0x90 && m[p + 2] == 0x38 && m[p + 3] == 0x12)
  {
  }

  /** Memory is the same from a to b. */
  ghost predicate Same(m: seq<byte>, m': seq<byte>, a: nat, b: nat) {
    |m'| == |m| && forall k :: a <= k < b && k < |m| ==> m'[k] == m[k]
  }

  /** Memory is the same but from a to b. */
  ghost predicate AlteredOnly(m: seq<byte>, m': seq<byte>, a: nat, b: nat) {
    |m'| == |m| && forall k :: 0 <= k < |m| && !(a <= k < b) ==> m'[k] == m[k]
  }

  lemma HeaderKept(m: seq<byte>, m': seq<byte>, p: nat, hole: bool, size: nat)
    requires Header(m, p, hole, size) && Same(m, m', p, p + HEADER)
    ensures Header(m', p, hole, size)
  {
  }

  lemma FooterKept(m: seq<byte>, m': seq<byte>, q: nat, head: nat)
    requires Footer(m, q, head) && Same(m, m', q, q + FOOTER)
    ensures Footer(m', q, head)
  {
  }

  // ----- the heap as a row of blocks

  /** The tags of a block; the last hole may lack its footer. */
  ghost predicate Tagged(m: seq<byte>, b: Block, last: bool) {
    && b.size >= HEADER + FOOTER && Header(m, b.pos, b.hole, b.size)
    && ((last && b.hole) || Footer(m, b.pos + b.size - FOOTER, b.pos))
  }

  ghost predicate Follows(blocks: seq<Block>, i: nat)
    requires i + 1 < |blocks|
  {
    blocks[i + 1].pos == blocks[i].pos + blocks[i].size
  }

  /** One block after another, from a to b. */
  ghost predicate Row(blocks: seq<Block>, a: nat, b: nat) {
    && blocks != [] && blocks[0].pos == a && blocks[|blocks| - 1].pos + blocks[|blocks| - 1].size == b
    && forall i: nat :: i + 1 < |blocks| ==> Follows(blocks, i)
  }

  /** The blocks tile the heap, and each carries its tags. */
  ghost predicate Tiled(m: seq<byte>, blocks: seq<Block>, end: nat) {
    && Row(blocks, START, end) && end <= |m|
    && forall i :: 0 <= i < |blocks| ==> Tagged(m, blocks[i], i == |blocks| - 1)
  }

  /** Blocks do not overlap and lie inside the heap. */
  lemma {:induction false} BlocksApart(m: seq<byte>, blocks: seq<Block>, end: nat, i: nat, j: nat)
    requires Tiled(m, blocks, end) && i <= j < |blocks|
    ensures i < j ==> blocks[i].pos + blocks[i].size <= blocks[j].pos
    ensures i == j ==> START <= blocks[0].pos <= blocks[i].pos
    decreases j
  {
    hide Header, Footer;
    assert Tagged(m, blocks[i], i == |blocks| - 1);
    if i < j {
      assert Follows(blocks, j - 1);
      assert Tagged(m, blocks[j - 1], false);
      if i < j - 1 {
        BlocksApart(m, blocks, end, i, j - 1);
      }
    } else if i > 0 {
      BlocksApart(m, blocks, end, i - 1, i - 1);
      assert Follows(blocks, i - 1);
    }
  }

  /** Where block i ends. */
  lemma EndsInside(m: seq<byte>, blocks: seq<Block>, end: nat, i: nat)
    requires Tiled(m, blocks, end) && i < |blocks|
    ensures START <= blocks[i].pos && blocks[i].pos + blocks[i].size <= end && blocks[i].size >= HEADER + FOOTER
    ensures i == |blocks| - 1 <==> blocks[i].pos + blocks[i].size == end
    ensures i == 0 <==> blocks[i].pos == START
  {
    hide Header, Footer;
    assert Tagged(m, blocks[i], i == |blocks| - 1) && Tagged(m, blocks[|blocks| - 1], true) && Tagged(m, blocks[0],
      |blocks| == 1);
    BlocksApart(m, blocks, end, i, i);
    BlocksApart(m, blocks, end, i, |blocks| - 1);
    BlocksApart(m, blocks, end, 0, i);
  }

  /** The tags of a block outside a changed region are kept. */
  lemma TagsKept(m: seq<byte>, m': seq<byte>, b: Block, last: bool, lo: nat, hi: nat)
    requires Tagged(m, b, last) && AlteredOnly(m, m', lo, hi) && (b.pos + b.size <= lo || hi <= b.pos)
    ensures Tagged(m', b, last)
  {
    HeaderAway(m, m', b, last, lo, hi);
    if !(last && b.hole) {
      FooterKept(m, m', b.pos + b.size - FOOTER, b.pos);
    }
  }

  lemma HeaderAway(m: seq<byte>, m': seq<byte>, b: Block, last: bool, lo: nat, hi: nat)
    requires Tagged(m, b, last) && AlteredOnly(m, m', lo, hi) && (b.pos + b.size <= lo || hi <= b.pos)
    ensures Header(m', b.pos, b.hole, b.size)
  {
    HeaderKept(m, m', b.pos, b.hole, b.size);
  }

  /** blocks with the n blocks from i on replaced. */
  function Replaced(blocks: seq<Block>, i: nat, n: nat, put: seq<Block>): (r: seq<Block>)
    requires i + n <= |blocks|
  {
    blocks[..i] + put + blocks[i + n..]
  }

  /** New blocks in the place of old ones, with their tags, tile the heap again. */
  lemma ReplacedTiled(m: seq<byte>, m': seq<byte>, blocks: seq<Block>, end: nat, i: nat, n: nat, put: seq<Block>,
      lo: nat, hi: nat)
    requires Tiled(m, blocks, end) && n >= 1 && i + n <= |blocks| && put != []
    requires lo == blocks[i].pos && hi == blocks[i + n - 1].pos + blocks[i + n - 1].size && Row(put, lo, hi)
    requires AlteredOnly(m, m', lo, hi)
    requires forall j :: 0 <= j < |put| ==> Tagged(m', put[j], i + n == |blocks| && j == |put| - 1)
    ensures Tiled(m', Replaced(blocks, i, n, put), end)
  {
    hide Tagged, Row, AlteredOnly;
    var r := Replaced(blocks, i, n, put);
    var k := |put|;
    assert |m'| == |m| by { SameLength(m, m', lo, hi); }
    ReplacedRow(blocks, START, end, i, n, put, lo, hi);
    forall j | 0 <= j < |r| ensures Tagged(m', r[j], j == |r| - 1) {
      if j < i {
        BlocksApart(m, blocks, end, j, i);
        TagsKept(m, m', blocks[j], false, lo, hi);
      } else if j >= i + k {
        BlocksApart(m, blocks, end, i + n - 1, j - k + n);
        TagsKept(m, m', blocks[j - k + n], j == |r| - 1, lo, hi);
      }
    }
  }

  lemma SameLength(m: seq<byte>, m': seq<byte>, lo: nat, hi: nat)
    requires AlteredOnly(m, m', lo, hi)
    ensures |m'| == |m|
  {
  }

  lemma ReplacedRow(blocks: seq<Block>, a: nat, b: nat, i: nat, n: nat, put: seq<Block>, lo: nat, hi: nat)
    requires Row(blocks, a, b) && n >= 1 && i + n <= |blocks| && Row(put, lo, hi)
    requires lo == blocks[i].pos && hi == blocks[i + n - 1].pos + blocks[i + n - 1].size
    ensures Row(Replaced(blocks, i, n, put), a, b)
  {
    var r, k := Replaced(blocks, i, n, put), |put|;
    forall j: nat | j + 1 < |r| ensures Follows(r, j) {
      if j + 1 < i {
        assert Follows(blocks, j);
      } else if j + 1 == i {
        assert Follows(blocks, j) && r[j + 1] == put[0];
      } else if j + 1 < i + k {
        assert Follows(put, j - i) && r[j] == put[j - i] && r[j + 1] == put[j + 1 - i];
      } else if j + 1 == i + k {
        assert Follows(blocks, i + n - 1) && r[j] == put[k - 1] && r[j + 1] == blocks[i + n];
      } else {
        assert Follows(blocks, j - k + n) && r[j] == blocks[j - k + n] && r[j + 1] == blocks[j + 1 - k + n];
      }
    }
  }

  // ----- the holes

  /** The addresses of the holes, in order. */
  ghost function Holes(blocks: seq<Block>): seq<u32> {
    if blocks == [] then []
    else Holes(blocks[..|blocks| - 1]) + HoleOf(blocks[|blocks| - 1])
  }

  ghost function HoleOf(b: Block): seq<u32> { if b.hole && b.pos < 0x1_0000_0000 then [b.pos as u32] else [] }

  lemma HolesAppend(a: seq<Block>, b: seq<Block>)
    ensures Holes(a + b) == Holes(a) + Holes(b)
  {
    if b == [] {
      assert a + b == a;
    } else {
      assert (a + b)[..|a + b| - 1] == a + b[..|b| - 1];
      HolesAppend(a, b[..|b| - 1]);
    }
  }

  /** The index holds the address of every hole, once. */
  ghost predicate Indexed(idx: seq<u32>, blocks: seq<Block>) { multiset(idx) == multiset(Holes(blocks)) }

  /** What replacing blocks does to the holes. */
  lemma HolesReplaced(blocks: seq<Block>, i: nat, n: nat, put: seq<Block>)
    requires i + n <= |blocks|
    ensures multiset(Holes(Replaced(blocks, i, n, put))) + multiset(Holes(blocks[i..i + n])) ==
            multiset(Holes(blocks)) + multiset(Holes(put))
  {
    assert blocks == blocks[..i] + blocks[i..i + n] + blocks[i + n..];
    HolesAppend(blocks[..i] + blocks[i..i + n], blocks[i + n..]);
    HolesAppend(blocks[..i], blocks[i..i + n]);
    HolesAppend(blocks[..i] + put, blocks[i + n..]);
    HolesAppend(blocks[..i], put);
  }

  lemma HolesOne(b: Block)
    ensures Holes([b]) == HoleOf(b)
  {
    assert [b][..0] == [];
  }

  lemma HolesTwo(b: Block, c: Block)
    ensures Holes([b, c]) == HoleOf(b) + HoleOf(c)
  {
    assert [b, c] == [b] + [c];
    HolesAppend([b], [c]);
    HolesOne(b);
    HolesOne(c);
  }

  /** An address on the list of holes is that of a hole. */
  lemma {:induction false} HoleAt(blocks: seq<Block>, p: u32) returns (i: nat)
    requires p in Holes(blocks)
    ensures i < |blocks| && blocks[i].hole && blocks[i].pos == p
  {
    var n := |blocks| - 1;
    if p in Holes(blocks[..n]) {
      i := HoleAt(blocks[..n], p);
    } else {
      i := n;
    }
  }

  lemma {:induction false} HoleListed(blocks: seq<Block>, i: nat)
    requires i < |blocks| && blocks[i].hole && blocks[i].pos < 0x1_0000_0000
    ensures blocks[i].pos in Holes(blocks)
  {
    var n := |blocks| - 1;
    if i < n {
      HoleListed(blocks[..n], i);
    } else {
      assert HoleOf(blocks[n])[0] == blocks[n].pos;
    }
  }

  // ----- allocation

  /** What becomes of a hole: a block of the size needed and a hole behind it, unless too little would be left. */
  function Carved(pos: nat, size: nat, need: nat): seq<Block>
    requires need <= size
  {
    if size - need < HEADER + FOOTER then [Block(pos, size, false)]
    else [Block(pos, need, false), Block(pos + need, size - need, true)]
  }

  /** A hole is split exactly if twenty bytes or more are left. */
  lemma CarvedExactly(pos: nat, size: nat, need: nat)
    requires need <= size
    ensures Carved(pos, size, need) ==
            if size < need + 20 then [Block(pos, size, false)]
            else [Block(pos, need, false), Block(pos + need, size - need, true)]
  {
  }

  /** Some hole has the size. */
  ghost predicate Fits(blocks: seq<Block>, need: nat) {
    exists i :: 0 <= i < |blocks| && blocks[i].hole && blocks[i].size >= need
  }

  function SizeAt(m: seq<byte>, p: u32): u32 { if p + HEADER <= |m| then Get32(m, p + 8) else 0 }

  // ----- the choice of a hole, and its place in the index

  /** Place k of the index is the first whose hole has the size. */
  ghost predicate FirstFit(m: seq<byte>, idx: seq<u32>, need: nat, k: nat) {
    && k < |idx| && SizeAt(m, idx[k]) >= need
    && forall j :: 0 <= j < k ==> SizeAt(m, idx[j]) < need
  }

  /** The item was put in front of the first one that is not smaller. */
  ghost predicate FiledAt(m: seq<byte>, idx: seq<u32>, idx': seq<u32>, item: u32, p: nat) {
    && p <= |idx| && idx' == idx[..p] + [item] + idx[p..]
    && (forall j :: 0 <= j < p ==> SizeAt(m, idx[j]) < SizeAt(m, item))
    && (p < |idx| ==> SizeAt(m, idx[p]) >= SizeAt(m, item))
  }

  ghost predicate Filed(m: seq<byte>, idx: seq<u32>, idx': seq<u32>, item: u32) {
    exists p: nat :: FiledAt(m, idx, idx', item, p)
  }

  lemma FiledBy(m: seq<byte>, idx: seq<u32>, item: u32, less: (u32, u32) -> bool)
    requires forall x, y :: less(x, y) <==> SizeAt(m, x) < SizeAt(m, y)
    ensures Filed(m, idx, Inserted(idx, item, less), item)
  {
    hide SizeAt;
    assert FiledAt(m, idx, Inserted(idx, item, less), item, Place(idx, item, less));
  }

  /** Hole i was the first of the index that fits; it left the index, and what is left of it came in. */
  ghost predicate Chosen(m: seq<byte>, m': seq<byte>, idx: seq<u32>, idx': seq<u32>, b: Block, need: nat) {
    exists k: nat :: ChosenAt(m, m', idx, idx', b, need, k)
  }

  ghost predicate ChosenAt(m: seq<byte>, m': seq<byte>, idx: seq<u32>, idx': seq<u32>, b: Block, need: nat, k: nat) {
    && FirstFit(m, idx, need, k) && idx[k] == b.pos && need <= b.size && b.pos + need < 0x1_0000_0000
    && if b.size - need < HEADER + FOOTER then idx' == Omitted(idx, k)
       else Filed(m', Omitted(idx, k), idx', b.pos + need)
  }

  /** The sizes of the holes in the index do not descend. */
  ghost predicate Ascending(m: seq<byte>, idx: seq<u32>) {
    forall j, k :: 0 <= j < k < |idx| ==> SizeAt(m, idx[j]) <= SizeAt(m, idx[k])
  }

  /** On an index in order of size the hole taken is the smallest that fits. */
  lemma BestFit(m: seq<byte>, m': seq<byte>, blocks: seq<Block>, end: nat, idx: seq<u32>, idx': seq<u32>, i: nat,
      need: nat, h: nat)
    requires Tiled(m, blocks, end) && end < 0x1_0000_0000 && Indexed(idx, blocks) && Ascending(m, idx)
    requires i < |blocks| && blocks[i].hole && Chosen(m, m', idx, idx', blocks[i], need)
    requires h < |blocks| && blocks[h].hole && blocks[h].size >= need
    ensures blocks[i].size <= blocks[h].size
  {
    hide Tiled, Indexed, SizeAt, Filed;
    var k: nat :| ChosenAt(m, m', idx, idx', blocks[i], need, k);
    EndsInside(m, blocks, end, i);
    EndsInside(m, blocks, end, h);
    SizeOfTag(m, blocks, end, i);
    SizeOfTag(m, blocks, end, h);
    var j := PlaceOf(blocks, end, idx, h);
  }

  /** Every hole is in the index. */
  lemma PlaceOf(blocks: seq<Block>, end: nat, idx: seq<u32>, h: nat) returns (j: nat)
    requires Indexed(idx, blocks) && h < |blocks| && blocks[h].hole && blocks[h].pos < 0x1_0000_0000
    ensures j < |idx| && idx[j] == blocks[h].pos
  {
    HoleListed(blocks, h);
    assert blocks[h].pos as u32 in multiset(idx);
    j :| 0 <= j < |idx| && idx[j] == blocks[h].pos as u32;
  }

  /** Each block takes at least its tags. */
  lemma {:induction false} BlocksBound(m: seq<byte>, blocks: seq<Block>, end: nat, i: nat)
    requires Tiled(m, blocks, end) && i < |blocks|
    ensures (HEADER + FOOTER) * (i + 1) <= blocks[i].pos + blocks[i].size - START
    decreases i
  {
    EndsInside(m, blocks, end, i);
    if i > 0 {
      BlocksBound(m, blocks, end, i - 1);
      assert Follows(blocks, i - 1);
    }
  }

  lemma HolesBound(blocks: seq<Block>)
    ensures |Holes(blocks)| <= |blocks|
  {
  }

  method WriteHeader(memory: array<byte>, p: nat, hole: bool, size: u32)
    requires p + HEADER <= memory.Length
    modifies memory
    ensures Header(memory[..], p, hole, size) && AlteredOnly(old(memory[..]), memory[..], p, p + HEADER)
  {
    ghost var m := memory[..];
    Store32(memory, p, HEAP_MAGIC);
    ghost var m1 := memory[..];
    memory[p + 4] := if hole then 1 else 0;
    ghost var m2 := memory[..];
    assert m2 == m1[p + 4 := if hole then 1 else 0];
    Store32(memory, p + 8, size);
    Put32Get32(m, p, HEAP_MAGIC, p);
    Put32Get32(m2, p + 8, size, p + 8);
    Put32Get32(m2, p + 8, size, p);
  }

  method WriteFooter(memory: array<byte>, q: nat, head: u32)
    requires q + FOOTER <= memory.Length
    modifies memory
    ensures Footer(memory[..], q, head) && AlteredOnly(old(memory[..]), memory[..], q, q + FOOTER)
  {
    ghost var m := memory[..];
    Store32(memory, q, HEAP_MAGIC);
    ghost var m1 := memory[..];
    Store32(memory, q + 4, head);
    Put32Get32(m, q, HEAP_MAGIC, q);
    Put32Get32(m1, q + 4, head, q);
    Put32Get32(m1, q + 4, head, q + 4);
  }

  lemma SameButWider(m: seq<byte>, m': seq<byte>, a: nat, b: nat, c: nat, d: nat)
    requires AlteredOnly(m, m', a, b) && c <= a && b <= d
    ensures AlteredOnly(m, m', c, d)
  {
  }

  lemma SameButTwice(m: seq<byte>, m1: seq<byte>, m2: seq<byte>, a: nat, b: nat)
    requires AlteredOnly(m, m1, a, b) && AlteredOnly(m1, m2, a, b)
    ensures AlteredOnly(m, m2, a, b)
  {
  }

  /** Tag a block: its header and its footer. */
  method WriteBlock(memory: array<byte>, b: Block)
    requires b.size >= HEADER + FOOTER && b.pos + b.size <= memory.Length < 0x1_0000_0000
    modifies memory
    ensures Tagged(memory[..], b, false) && AlteredOnly(old(memory[..]), memory[..], b.pos, b.pos + b.size)
  {
    hide Header, Footer, AlteredOnly;
    ghost var m := memory[..];
    WriteHeader(memory, b.pos, b.hole, b.size);
    ghost var m1 := memory[..];
    WriteFooter(memory, b.pos + b.size - FOOTER, b.pos);
    TaggedBy(m, m1, memory[..], b);
  }

  /** Header, then footer. */
  lemma TaggedBy(m: seq<byte>, m1: seq<byte>, m2: seq<byte>, b: Block)
    requires b.size >= HEADER + FOOTER && Header(m1, b.pos, b.hole, b.size) && AlteredOnly(m, m1, b.pos, b.pos + HEADER)
    requires Footer(m2, b.pos + b.size - FOOTER, b.pos) && AlteredOnly(m1, m2, b.pos + b.size - FOOTER, b.pos + b.size)
    ensures Tagged(m2, b, false) && AlteredOnly(m, m2, b.pos, b.pos + b.size)
  {
    hide Header, Footer, AlteredOnly;
    HeaderStays(m1, m2, b.pos, b.hole, b.size, b.pos + b.size - FOOTER);
    SameButWider(m, m1, b.pos, b.pos + HEADER, b.pos, b.pos + b.size);
    SameButWider(m1, m2, b.pos + b.size - FOOTER, b.pos + b.size, b.pos, b.pos + b.size);
    SameButTwice(m, m1, m2, b.pos, b.pos + b.size);
  }

  lemma HeaderStays(m: seq<byte>, m': seq<byte>, p: nat, hole: bool, size: nat, q: nat)
    requires Header(m, p, hole, size) && AlteredOnly(m, m', q, q + FOOTER) && p + HEADER <= q
    ensures Header(m', p, hole, size)
  {
    HeaderKept(m, m', p, hole, size);
  }

  /** The size that the index sees for a hole is the hole's size. */
  lemma HoleOfIndex(m: seq<byte>, blocks: seq<Block>, end: nat, idx: seq<u32>, k: nat) returns (i: nat)
    requires Tiled(m, blocks, end) && Indexed(idx, blocks) && k < |idx|
    ensures i < |blocks| && blocks[i].hole && blocks[i].pos == idx[k] && SizeAt(m, idx[k]) == blocks[i].size
  {
    assert idx[k] in multiset(idx);
    i := HoleAt(blocks, idx[k]);
    assert Tagged(m, blocks[i], i == |blocks| - 1);
  }

  /** If the index sees no hole of the size there is none. */
  lemma NoneFits(m: seq<byte>, blocks: seq<Block>, end: nat, idx: seq<u32>, need: nat)
    requires Tiled(m, blocks, end) && Indexed(idx, blocks) && end < 0x1_0000_0000
    requires forall k :: 0 <= k < |idx| ==> SizeAt(m, idx[k]) < need
    ensures !Fits(blocks, need)
  {
    hide SizeAt;
    forall i | 0 <= i < |blocks| && blocks[i].hole ensures blocks[i].size < need {
      EndsInside(m, blocks, end, i);
      HoleListed(blocks, i);
      assert blocks[i].pos as u32 in multiset(idx);
      var k :| 0 <= k < |idx| && idx[k] == blocks[i].pos as u32;
      SizeOfTag(m, blocks, end, i);
    }
  }

  lemma SizeOfTag(m: seq<byte>, blocks: seq<Block>, end: nat, i: nat)
    requires Tiled(m, blocks, end) && i < |blocks| && blocks[i].pos < 0x1_0000_0000
    ensures SizeAt(m, blocks[i].pos) == blocks[i].size
  {
    assert Tagged(m, blocks[i], i == |blocks| - 1);
  }

  /** The index has room for one more hole. */
  lemma IndexRoom(m: seq<byte>, blocks: seq<Block>, end: nat, idx: seq<u32>, capacity: nat)
    requires Tiled(m, blocks, end) && Indexed(idx, blocks) && end - START < (HEADER + FOOTER) * (capacity - 1)
    ensures |idx| < capacity
  {
    BlocksBound(m, blocks, end, |blocks| - 1);
    HolesBound(blocks);
    assert |multiset(idx)| == |idx| && |multiset(Holes(blocks))| == |Holes(blocks)|;
  }

  /** The carved blocks take the place of the hole. */
  lemma CarvedRow(pos: nat, size: nat, need: nat)
    requires HEADER + FOOTER <= need <= size
    ensures Row(Carved(pos, size, need), pos, pos + size)
    ensures Holes(Carved(pos, size, need)) ==
            if size - need < HEADER + FOOTER then [] else HoleOf(Block(pos + need, size - need, true))
  {
    HolesOne(Block(pos, size, false));
    HolesTwo(Block(pos, need, false), Block(pos + need, size - need, true));
  }

  /** The heap after a hole b is carved. */
  lemma CarvedTiled(m: seq<byte>, m': seq<byte>, blocks: seq<Block>, end: nat, i: nat, need: nat, b: Block,
      c: seq<Block>)
    requires Tiled(m, blocks, end) && i < |blocks| && b == blocks[i]
    requires HEADER + FOOTER <= need <= b.size && c == Carved(b.pos, b.size, need)
    requires AlteredOnly(m, m', b.pos, b.pos + b.size) && forall j :: 0 <= j < |c| ==> Tagged(m', c[j], false)
    ensures Tiled(m', Replaced(blocks, i, 1, c), end)
  {
    hide Tagged, AlteredOnly, Tiled, Row, Replaced;
    CarvedRow(b.pos, b.size, need);
    NotLast(m', c);
    ReplacedTiled(m, m', blocks, end, i, 1, c, b.pos, b.pos + b.size);
  }

  /** And its index: the hole is taken out, and what is left of it put in. */
  lemma CarvedIndex(blocks: seq<Block>, i: nat, need: nat, b: Block, c: seq<Block>, idx: seq<u32>, k: nat,
      less: (u32, u32) -> bool)
    requires i < |blocks| && b == blocks[i] && b.hole && b.pos + b.size < 0x1_0000_0000
    requires HEADER + FOOTER <= need <= b.size && c == Carved(b.pos, b.size, need)
    requires Indexed(idx, blocks) && k < |idx| && idx[k] == b.pos
    ensures b.size - need < HEADER + FOOTER ==> Indexed(Omitted(idx, k), Replaced(blocks, i, 1, c))
    ensures b.size - need >= HEADER + FOOTER ==>
              Indexed(Inserted(Omitted(idx, k), b.pos + need, less), Replaced(blocks, i, 1, c))
  {
    hide Inserted, Omitted, Holes, Replaced;
    CarvedRow(b.pos, b.size, need);
    assert blocks[i..i + 1] == [b];
    HolesOne(b);
    HolesReplaced(blocks, i, 1, c);
    assert idx[k] in multiset(idx);
    Cancel(multiset(Holes(Replaced(blocks, i, 1, c))), multiset(idx), multiset(Holes(c)), b.pos);
    RemovedItems(idx, k);
    InsertedItems(Omitted(idx, k), b.pos + need, less);
  }

  lemma Cancel(x: multiset<u32>, y: multiset<u32>, c: multiset<u32>, p: u32)
    requires x + multiset{p} == y + c && p in y
    ensures x == y - multiset{p} + c
  {
    assert x == x + multiset{p} - multiset{p};
  }

  /** A single hole without a footer. */
  lemma FreshTiled(m: seq<byte>, end: nat)
    requires START + HEADER + FOOTER <= end <= |m| && end < 0x1_0000_0000 && Header(m, START, true, end - START)
    ensures Tiled(m, [Block(START, end - START, true)], end)
    ensures forall less :: Indexed(Inserted([], START, less), [Block(START, end - START, true)])
  {
    HolesOne(Block(START, end - START, true));
    forall less ensures Indexed(Inserted([], START, less), [Block(START, end - START, true)]) {
      InsertedItems([], START, less);
    }
  }

  lemma GuardKept(m: seq<byte>, m': seq<byte>, a: nat, b: nat)
    requires AlteredOnly(m, m', a, b) && a >= START && |m| >= START
    ensures Get32(m', 0) == Get32(m, 0)
  {
  }

  /** Tags with their footer serve anywhere. */
  lemma NotLast(m: seq<byte>, c: seq<Block>)
    requires forall j :: 0 <= j < |c| ==> Tagged(m, c[j], false)
    ensures forall j, last: bool :: 0 <= j < |c| ==> Tagged(m, c[j], last)
  {
  }

  /** The end of heap_create: nothing in front of the heap, and one hole in it. */
  method FirstHole(memory: array<byte>, index: OrderedArray, end: nat)
    requires index.Valid() && index.Contents() == [] && index.items.Length > 0
    requires START + HEADER + FOOTER <= end <= memory.Length < 0x1_0000_0000
    modifies memory, index, index.items
    ensures index.Valid() && Indexed(index.Contents(), [Block(START, end - START, true)])
    ensures Tiled(memory[..], [Block(START, end - START, true)], end) && Get32(memory[..], 0) != HEAP_MAGIC
  {
    hide Tiled, Indexed, Inserted, Header, AlteredOnly, SizeAt, Get32, Put32;
    ghost var before := memory[..];
    Store32(memory, 0, 0);
    ghost var m := memory[..];
    Put32Get32(before, 0, 0, 0);
    WriteHeader(memory, START, true, end - START);
    var m': seq<byte> := memory[..];
    FreshTiled(m', end);
    GuardKept(m, m', START, START + HEADER);
    index.Insert(START, (a: u32, b: u32) => SizeAt(m', a) < SizeAt(m', b));
  }

  class Heap {
    const memory: array<byte>
    const index: OrderedArray
    const end: nat

    ghost var blocks: seq<Block>

    /** The blocks tile the memory, and the index holds exactly the holes. */
    ghost predicate Valid()
      reads this, memory, index, index.items
    {
      && index.Valid()
      && Tiled(memory[..], blocks, end) && end < 0x1_0000_0000 && end <= memory.Length < 0x1_0000_0000
      && Get32(memory[..], 0) != HEAP_MAGIC
      && Indexed(index.Contents(), blocks)
      && end - START < (HEADER + FOOTER) * (index.items.Length - 1)
    }

    /** heap_create, with the index beside the memory. */
    constructor (end: nat, capacity: nat, entries: nat)
      requires START + HEADER + FOOTER <= end <= capacity < 0x1_0000_0000
      requires end - START < (HEADER + FOOTER) * (entries - 1)
      ensures Valid() && fresh(memory) && fresh(index) && fresh(index.items)
      ensures this.end == end && blocks == [Block(START, end - START, true)]
    {
      memory := new byte[capacity];
      index := new OrderedArray(entries);
      this.end := end;
      blocks := [Block(START, end - START, true)];
      new;
      hide Tiled, Indexed;
      FirstHole(memory, index, end);
    }

    /** find_smallest_hole, not page-aligned: the first indexed hole of the size. */
    method FindSmallestHole(size: u32) returns (k: int)
      requires Valid()
      ensures -1 <= k < |index.Contents()|
      ensures k >= 0 ==> FirstFit(memory[..], index.Contents(), size, k)
      ensures k == -1 ==> !Fits(blocks, size)
    {
      hide Tiled, Indexed, Fits;
      k := 0;
      ghost var m, idx := memory[..], index.Contents();
      while k < index.size
        invariant 0 <= k <= |idx| == index.size
        invariant forall j :: 0 <= j < k ==> SizeAt(m, idx[j]) < size
      {
        var header := index.Lookup(k);
        ghost var i := HoleOfIndex(m, blocks, end, idx, k);
        HeaderInside(m, blocks, end, i);
        var found := Load32(memory, header + 8);
        if found >= size {
          return;
        }
        k := k + 1;
      }
      NoneFits(m, blocks, end, idx, size);
      k := -1;
    }

    /** Write the tags of the carved blocks. */
    method Carve(pos: nat, origSize: nat, blockSize: nat, ghost need: nat)
      requires HEADER + FOOTER <= need <= origSize && START <= pos
      requires pos + origSize <= end <= memory.Length < 0x1_0000_0000
      requires blockSize == if origSize - need < HEADER + FOOTER then origSize else need
      modifies memory
      ensures AlteredOnly(old(memory[..]), memory[..], pos, pos + origSize)
      ensures forall j :: 0 <= j < |Carved(pos, origSize, need)| ==>
              Tagged(memory[..], Carved(pos, origSize, need)[j], false)
    {
      hide Tagged, AlteredOnly, Header, Footer;
      ghost var m := memory[..];
      WriteBlock(memory, Block(pos, blockSize, false));
      ghost var m1 := memory[..];
      SameButWider(m, m1, pos, pos + blockSize, pos, pos + origSize);
      if origSize - blockSize > 0 {
        var rest := Block(pos + blockSize, origSize - blockSize, true);
        WriteHeader(memory, rest.pos, true, rest.size);
        ghost var m2 := memory[..];
        var footer := rest.pos + rest.size - FOOTER;
        if footer < end {
          WriteFooter(memory, footer, rest.pos);
        }
        TaggedBy(m1, m2, memory[..], rest);
        TagsKept(m1, memory[..], Block(pos, blockSize, false), false, rest.pos, rest.pos + rest.size);
        SameButWider(m1, memory[..], rest.pos, rest.pos + rest.size, pos, pos + origSize);
        SameButTwice(m, m1, memory[..], pos, pos + origSize);
      }
    }

    /** heap_alloc without page alignment; false asks for the heap to be expanded.  i is the hole used. */
    method Alloc(size: u32) returns (ok: bool, address: u32, ghost i: nat)
      requires Valid() && size + HEADER + FOOTER < 0x1_0000_0000
      modifies `blocks, memory, index, index.items
      ensures Valid()
      ensures ok <==> Fits(old(blocks), size + HEADER + FOOTER)
      ensures !ok ==>
                blocks == old(blocks) && memory[..] == old(memory[..]) && index.Contents() == old(index.Contents())
      ensures ok ==> AllocatedAt(old(memory[..]), memory[..], old(blocks), blocks, i, size + HEADER + FOOTER, address)
      ensures ok ==>
                && i < |old(blocks)|
                && Chosen(old(memory[..]), memory[..], old(index.Contents()), index.Contents(), old(blocks)[i],
                     size + HEADER + FOOTER)
    {
      hide Tiled, Fits, Indexed, AllocatedAt, SizeAt, FirstFit, Chosen;
      var k := FindSmallestHole(size + HEADER + FOOTER);
      if k == -1 {
        return false, 0, 0;
      }
      ok := true;
      address, i := TakeHole(k, size + HEADER + FOOTER, memory[..], blocks);
    }

    /** Carve the hole at place k of the index. */
    method TakeHole(k: nat, need: u32, ghost m: seq<byte>, ghost was: seq<Block>) returns (address: u32, ghost i: nat)
      requires Valid() && FirstFit(memory[..], index.Contents(), need, k)
      requires need >= HEADER + FOOTER
      requires m == memory[..] && was == blocks
      modifies `blocks, memory, index, index.items
      ensures Valid() && AllocatedAt(m, memory[..], was, blocks, i, need, address) && Fits(was, need)
      ensures i < |was| && Chosen(m, memory[..], old(index.Contents()), index.Contents(), was[i], need)
    {
      hide Tiled, Tagged, AlteredOnly, Fits, Indexed, Replaced, Carved, Inserted, Omitted, AllocatedAt, SizeAt, Filed;
      hide Chosen;
      ghost var idx := index.Contents();
      var pos := index.Lookup(k);
      i := HoleOfIndex(m, was, end, idx, k);
      EndsInside(m, was, end, i);
      SizeIs(m, pos);
      var origSize := Load32(memory, pos + 8);
      var blockSize := if origSize - need < HEADER + FOOTER then origSize else need;
      IndexRoom(m, was, end, idx, index.items.Length);
      index.Remove(k);
      Carve(pos, origSize, blockSize, need);
      var m': seq<byte> := memory[..];
      ghost var c := Carved(pos, origSize, need);
      CarvedTiled(m, m', was, end, i, need, was[i], c);
      var less := (x: u32, y: u32) => SizeAt(m', x) < SizeAt(m', y);
      CarvedIndex(was, i, need, was[i], c, idx, k, less);
      GuardKept(m, m', pos, pos + origSize);
      if origSize - blockSize > 0 {
        FiledBy(m', Omitted(idx, k), pos + blockSize, less);
        index.Insert(pos + blockSize, less);
      }
      ChosenBy(m, m', idx, index.Contents(), was[i], need, k);
      blocks := Replaced(was, i, 1, c);
      address := pos + HEADER;
      AllocatedBy(m, m', was, blocks, i, need, address);
    }

    /** The end of heap_free: the freed block takes in the hole on its left. */
    method MergeLeft(left: nat, leftSize: nat, header: nat, size: nat)
      requires START <= left && leftSize >= HEADER + FOOTER && size >= HEADER + FOOTER && left + leftSize == header
      requires header + size <= memory.Length < 0x1_0000_0000
      requires Header(memory[..], left, true, leftSize) && Footer(memory[..], header + size - FOOTER, header)
      modifies memory
      ensures Tagged(memory[..], Block(left, leftSize + size, true), false)
      ensures AlteredOnly(old(memory[..]), memory[..], left, header + size)
    {
      hide Header, Footer, Put32, Get32, Tagged, AlteredOnly;
      var footer := header + size - FOOTER;
      ghost var m := memory[..];
      Store32(memory, footer + 4, left);
      ghost var m1 := memory[..];
      var leftNow := Load32(memory, left + 8);
      SizeKept(m, m1, left, leftSize, footer + 4);
      Store32(memory, left + 8, leftNow + size);
      MergedTags(m, m1, memory[..], left, leftSize, header, size);
    }

    /** The freed block j, marked as a hole, becomes one with the hole on its left, if there is one. */
    method JoinLeft(header: nat, size: nat, ghost was: seq<Block>, ghost j: nat)
      returns (at: nat, total: nat, add: bool)
      requires START <= header && size >= HEADER + FOOTER && header + size < end <= memory.Length < 0x1_0000_0000
      requires j < |was| && was[j].pos == header && was[j].size == size
      requires Header(memory[..], header, true, size) && Footer(memory[..], header + size - FOOTER, header)
      requires j == 0 ==> header == START && Get32(memory[..], 0) != HEAP_MAGIC
      requires j > 0 ==> var l := was[j - 1];
        && l.pos + l.size == header && START <= l.pos && l.size >= HEADER + FOOTER
        && Footer(memory[..], header - FOOTER, l.pos) && Header(memory[..], l.pos, l.hole, l.size)
      modifies memory
      ensures add <==> !(j > 0 && was[j - 1].hole)
      ensures at == was[First(was, j)].pos && total == header + size - at
      ensures Tagged(memory[..], Block(at, total, true), false)
      ensures AlteredOnly(old(memory[..]), memory[..], at, header + size)
    {
      hide Tagged, AlteredOnly;
      at, total, add := header, size, true;
      var testMagic := Load32(memory, header - FOOTER);
      var testHead := Load32(memory, header - FOOTER + 4);
      if testMagic == HEAP_MAGIC {
        add := memory[testHead + 4] != 1;
      }
      if !add {
        var leftSize := Load32(memory, testHead + 8);
        MergeLeft(testHead, leftSize, header, size);
        at, total := testHead, leftSize + size;
      } else {
        TaggedIs(memory[..], Block(header, size, true));
        NothingAltered(memory[..], at, header + size);
      }
    }

    /** Hole i takes in the hole on its right, if there is one, and that leaves the index. */
    method JoinRight(at: nat, right: nat, ghost put: seq<Block>, ghost i: nat) returns (joined: bool, ghost k: nat)
      requires Tiled(memory[..], put, end) && end <= memory.Length < 0x1_0000_0000 && i + 1 < |put| && put[i].hole
      requires at == put[i].pos && right == put[i + 1].pos
      requires index.Valid() && index.size < index.items.Length && (put[i + 1].hole ==> right in index.Contents())
      modifies memory, index`size, index.items
      ensures index.Valid() && (joined <==> put[i + 1].hole)
      ensures !joined ==> memory[..] == old(memory[..]) && index.Contents() == old(index.Contents())
      ensures joined ==>
                && k < |old(index.Contents())| && old(index.Contents())[k] == right
                && index.Contents() == Omitted(old(index.Contents()), k)
                && at + HEADER <= memory.Length && put[i].size + put[i + 1].size < 0x1_0000_0000
                && memory[..] == Put32(old(memory[..]), at + 8, put[i].size + put[i + 1].size)
    {
      hide Tiled, Omitted, Put32;
      RightOf(memory[..], put, end, i);
      joined, k := false, 0;
      var magic := Load32(memory, right);
      if magic == HEAP_MAGIC && memory[right + 4] != 0 {
        joined := true;
        var size := Load32(memory, at + 8);
        var more := Load32(memory, right + 8);
        Store32(memory, at + 8, size + more);
        var place := 0;
        while place < index.size && index.items[place] != right
          invariant place <= index.size && right !in index.Contents()[..place]
        {
          place := place + 1;
        }
        k := place;
        index.Remove(place);
      }
    }

    /**
     * heap_free of a null pointer, or of block j.  The extent freed, with a hole on the right, does not
     * reach the end of the heap; contraction does not arise then.
     */
    method Free(p: u32, ghost j: nat)
      requires Valid()
      requires p != 0 ==> j + 1 < |blocks| && !blocks[j].hole && p == blocks[j].pos + HEADER
      requires p != 0 && blocks[j + 1].hole ==> j + 2 < |blocks|
      modifies `blocks, memory, index, index.items
      ensures Valid() <==> p == 0 || !old(blocks)[j + 1].hole
      ensures index.Valid() && Indexed(index.Contents(), blocks)
      ensures p == 0 ==>
                memory[..] == old(memory[..]) && blocks == old(blocks) && index.Contents() == old(index.Contents())
      ensures p != 0 && !old(blocks)[j + 1].hole ==>
                && FreedAt(old(memory[..]), memory[..], old(blocks), blocks, j)
                && if j > 0 && old(blocks)[j - 1].hole then index.Contents() == old(index.Contents())
                   else Filed(memory[..], old(index.Contents()), index.Contents(), old(blocks)[j].pos)
      ensures p != 0 && old(blocks)[j + 1].hole ==> JoinedAt(old(memory[..]), memory[..], old(blocks), blocks, j, end)
    {
      hide Tiled, Tagged, AlteredOnly, Header, Footer, Indexed, Replaced, Inserted, SizeAt, FreedAt, Filed;
      hide Omitted, Put32, JoinedAt;
      ghost var m, was, idx := memory[..], blocks, index.Contents();
      if p == 0 {
        return;
      }
      var header := p - HEADER;
      LiveBlock(m, was, end, j);
      LeftOf(m, was, end, j);
      IndexRoom(m, was, end, idx, index.items.Length);
      var size := Load32(memory, header + 8);
      memory[header + 4] := 1;
      ghost var m1 := memory[..];
      MarkedHole(m, m1, was, end, j);
      var at, total, add := JoinLeft(header, size, was, j);
      ghost var m2, i := memory[..], First(was, j);
      ghost var put := FreedHeap(m, m1, m2, was, end, j, idx, total);
      RightOf(m, was, end, j);
      InIndex(was, end, idx, j + 1);
      var joined;
      ghost var k;
      joined, k := JoinRight(at, header + size, put, i);
      ghost var idx2 := index.Contents();
      var m': seq<byte> := memory[..];
      var less := (x: u32, y: u32) => SizeAt(m', x) < SizeAt(m', y);
      if joined {
        JoinedHeap(m, m2, m', was, put, end, j, idx, idx2, k, less);
      }
      if add {
        index.Insert(at, less);
        FiledBy(m', idx2, at, less);
      }
      blocks := if joined then Joined(put, i) else put;
    }
  }

  // ----- what a freed block becomes

  /** The first of the blocks that become one when block j is freed. */
  function First(blocks: seq<Block>, j: nat): (i: nat)
    requires j < |blocks|
    ensures i <= j
  {
    if j > 0 && blocks[j - 1].hole then j - 1 else j
  }

  lemma NothingAltered(m: seq<byte>, a: nat, b: nat)
    ensures AlteredOnly(m, m, a, b)
  {
  }

  /** The heap after block j became a hole, before the hole on its right is looked at. */
  lemma FreedHeap(m: seq<byte>, m1: seq<byte>, m2: seq<byte>, was: seq<Block>, end: nat, j: nat, idx: seq<u32>,
      total: nat) returns (put: seq<Block>)
    requires Tiled(m, was, end) && j + 1 < |was| && !was[j].hole && end < 0x1_0000_0000 && Indexed(idx, was)
    requires var b, at := was[j], was[First(was, j)].pos;
      && total == b.pos + b.size - at && AlteredOnly(m, m1, b.pos, b.pos + b.size)
      && AlteredOnly(m1, m2, at, b.pos + b.size) && Tagged(m2, Block(at, total, true), false)
    ensures var i := First(was, j);
      && Tiled(m2, put, end) && i + 1 < |put| && put[i] == Block(was[i].pos, total, true) && put[i + 1] == was[j + 1]
      && |put| == |was| + i - j && FreedAt(m, m2, was, put, j) && Get32(m2, 0) == Get32(m, 0)
      && put == Replaced(was, i, j + 1 - i, [Block(was[i].pos, total, true)])
    ensures First(was, j) < j ==> Indexed(idx, put)
    ensures First(was, j) == j ==>
              forall less, p: u32 :: p == was[j].pos ==> Indexed(Inserted(idx, p, less), put)
  {
    hide Tiled, Tagged, AlteredOnly, Indexed, Inserted;
    var b := was[j];
    LiveBlock(m, was, end, j);
    if First(was, j) < j {
      LeftOf(m, was, end, j);
      put := Replaced(was, j - 1, 2, [Block(was[j - 1].pos, total, true)]);
      MergedHeap(m, m1, m2, was, end, j, idx);
    } else {
      put := Replaced(was, j, 1, [Block(b.pos, total, true)]);
      SameButTwice(m, m1, m2, b.pos, b.pos + b.size);
      TagsOf(m2, Block(b.pos, total, true));
      forall less, p: u32 | p == was[j].pos ensures Indexed(Inserted(idx, p, less), put) {
        AloneHeap(m, m2, was, end, j, idx, less);
      }
      AloneHeap(m, m2, was, end, j, idx, (x: u32, y: u32) => true);
    }
  }

  lemma TagsOf(m: seq<byte>, b: Block)
    requires Tagged(m, b, false)
    ensures Header(m, b.pos, b.hole, b.size) && Footer(m, b.pos + b.size - FOOTER, b.pos)
  {
  }

  // ----- the hole on the right

  /** What stands behind hole i. */
  lemma RightOf(m: seq<byte>, blocks: seq<Block>, end: nat, i: nat)
    requires Tiled(m, blocks, end) && i + 1 < |blocks|
    ensures var b, r := blocks[i], blocks[i + 1];
      && Header(m, b.pos, b.hole, b.size) && Header(m, r.pos, r.hole, r.size)
      && START <= b.pos && r.pos == b.pos + b.size && r.pos + r.size <= end <= |m|
      && b.size >= HEADER + FOOTER && r.size >= HEADER + FOOTER
  {
    assert Follows(blocks, i) && Tagged(m, blocks[i], false) && Tagged(m, blocks[i + 1], i + 1 == |blocks| - 1);
    EndsInside(m, blocks, end, i + 1);
    EndsInside(m, blocks, end, i);
  }

  /** blocks with block i and the next one as one hole. */
  function Joined(blocks: seq<Block>, i: nat): seq<Block>
    requires i + 1 < |blocks|
  {
    Replaced(blocks, i, 2, [Block(blocks[i].pos, blocks[i].size + blocks[i + 1].size, true)])
  }

  /**
   * The blocks are in order but for the footer of hole i, which leads to a header inside the hole that
   * still looks like one.
   */
  ghost predicate Stale(m: seq<byte>, blocks: seq<Block>, end: nat, i: nat, inner: nat) {
    && i + 1 < |blocks| && Row(blocks, START, end) && end <= |m|
    && (forall k :: 0 <= k < |blocks| && k != i ==> Tagged(m, blocks[k], k == |blocks| - 1))
    && StaleHole(m, blocks[i], inner)
  }

  ghost predicate StaleHole(m: seq<byte>, b: Block, inner: nat) {
    && b.hole && b.size >= HEADER + FOOTER && Header(m, b.pos, true, b.size)
    && b.pos < inner < b.pos + b.size && Header(m, inner, true, b.pos + b.size - inner)
    && Footer(m, b.pos + b.size - FOOTER, inner)
  }

  /** A hole is joined with the one on its right: only the size in its header is written. */
  lemma JoinedStale(m: seq<byte>, m': seq<byte>, blocks: seq<Block>, end: nat, i: nat, sum: u32)
    requires Tiled(m, blocks, end) && i + 2 < |blocks| && blocks[i].hole && blocks[i + 1].hole
    requires sum == blocks[i].size + blocks[i + 1].size && blocks[i].pos + HEADER <= |m|
    requires m' == Put32(m, blocks[i].pos + 8, sum)
    ensures Stale(m', Joined(blocks, i), end, i, blocks[i + 1].pos)
    ensures AlteredOnly(m, m', blocks[i].pos, blocks[i + 1].pos)
  {
    hide Tagged, AlteredOnly, StaleHole, Header, Footer, Put32, Tiled, Row, Joined;
    var b, r := blocks[i], blocks[i + 1];
    RightOf(m, blocks, end, i);
    RightOf(m, blocks, end, i + 1);
    Only32(m, b.pos + 8, sum, b.pos, r.pos);
    TagsAt(m, blocks, end, i + 1);
    JoinedHole(m, m', b, r, sum);
    JoinedRow(blocks, end, m, i);
    JoinedTags(m, m', blocks, end, i);
    StaleBy(m', Joined(blocks, i), end, i, r.pos);
  }

  lemma StaleBy(m: seq<byte>, blocks: seq<Block>, end: nat, i: nat, inner: nat)
    requires i + 1 < |blocks| && Row(blocks, START, end) && end <= |m|
    requires forall k :: 0 <= k < |blocks| && k != i ==> Tagged(m, blocks[k], k == |blocks| - 1)
    requires StaleHole(m, blocks[i], inner)
    ensures Stale(m, blocks, end, i, inner)
  {
  }

  lemma TagsAt(m: seq<byte>, blocks: seq<Block>, end: nat, i: nat)
    requires Tiled(m, blocks, end) && i < |blocks|
    ensures Tagged(m, blocks[i], i == |blocks| - 1)
  {
  }

  /** The other blocks keep their tags. */
  lemma JoinedTags(m: seq<byte>, m': seq<byte>, blocks: seq<Block>, end: nat, i: nat)
    requires Tiled(m, blocks, end) && i + 2 < |blocks|
    requires AlteredOnly(m, m', blocks[i].pos, blocks[i + 1].pos)
    ensures var s := Joined(blocks, i);
      forall k :: 0 <= k < |s| && k != i ==> Tagged(m', s[k], k == |s| - 1)
  {
    hide Tagged, AlteredOnly, Tiled;
    var s := Joined(blocks, i);
    forall k | 0 <= k < |s| && k != i ensures Tagged(m', s[k], k == |s| - 1) {
      if k < i {
        BlocksApart(m, blocks, end, k, i);
        TagsAt(m, blocks, end, k);
        TagsKept(m, m', blocks[k], false, blocks[i].pos, blocks[i + 1].pos);
      } else {
        BlocksApart(m, blocks, end, i + 1, k + 1);
        TagsAt(m, blocks, end, k + 1);
        TagsKept(m, m', blocks[k + 1], k + 1 == |blocks| - 1, blocks[i].pos, blocks[i + 1].pos);
      }
    }
  }

  lemma JoinedRow(blocks: seq<Block>, end: nat, m: seq<byte>, i: nat)
    requires Tiled(m, blocks, end) && i + 2 < |blocks|
    ensures Row(Joined(blocks, i), START, end) && i + 1 < |Joined(blocks, i)| && end <= |m|
    ensures Joined(blocks, i)[i] == Block(blocks[i].pos, blocks[i].size + blocks[i + 1].size, true)
  {
    hide Tagged;
    var b, r := blocks[i], blocks[i + 1];
    assert Follows(blocks, i);
    ReplacedRow(blocks, START, end, i, 2, [Block(b.pos, b.size + r.size, true)], b.pos, r.pos + r.size);
  }

  lemma JoinedHole(m: seq<byte>, m': seq<byte>, b: Block, r: Block, sum: u32)
    requires Header(m, b.pos, true, b.size) && Tagged(m, r, false) && r.hole && r.pos == b.pos + b.size
    requires b.size >= HEADER + FOOTER && sum == b.size + r.size && m' == Put32(m, b.pos + 8, sum)
    ensures StaleHole(m', Block(b.pos, sum, true), r.pos)
  {
    TagsOf(m, r);
    hide Tagged, Get32, Put32;
    Put32Get32(m, b.pos + 8, sum, b.pos + 8);
    Put32Get32(m, b.pos + 8, sum, b.pos);
    Only32(m, b.pos + 8, sum, b.pos + 8, b.pos + HEADER);
    HeaderKept(m, m', r.pos, true, r.size);
    FooterKept(m, m', r.pos + r.size - FOOTER, r.pos);
  }

  lemma InIndex(blocks: seq<Block>, end: nat, idx: seq<u32>, h: nat)
    requires Indexed(idx, blocks) && h < |blocks| && blocks[h].pos < 0x1_0000_0000
    ensures blocks[h].hole ==> blocks[h].pos in idx
  {
    if blocks[h].hole {
      var j := PlaceOf(blocks, end, idx, h);
    }
  }

  /** The address of the hole joined leaves the index, that of a block new in it comes in. */
  lemma JoinedIndexed(blocks: seq<Block>, i: nat, idx: seq<u32>, k: nat, add: bool, less: (u32, u32) -> bool)
    requires i + 1 < |blocks| && blocks[i].hole && blocks[i + 1].hole && blocks[i].pos < 0x1_0000_0000
    requires k < |idx| && idx[k] == blocks[i + 1].pos
    requires if add then Indexed(Inserted(idx, blocks[i].pos, less), blocks) else Indexed(idx, blocks)
    ensures var r := Omitted(idx, k);
      Indexed(if add then Inserted(r, blocks[i].pos, less) else r, Joined(blocks, i))
  {
    hide Inserted, Omitted, Holes, Joined;
    var p := blocks[i].pos;
    JoinedHoles(blocks, i, p, idx[k]);
    RemovedItems(idx, k);
    InsertedItems(idx, p, less);
    InsertedItems(Omitted(idx, k), p, less);
    OneLess(multiset(Holes(Joined(blocks, i))), multiset(Holes(blocks)), multiset(idx), p, idx[k]);
  }

  lemma JoinedHoles(blocks: seq<Block>, i: nat, p: u32, q: u32)
    requires i + 1 < |blocks| && blocks[i].hole && blocks[i + 1].hole && blocks[i].pos == p && blocks[i + 1].pos == q
    ensures multiset(Holes(Joined(blocks, i))) + multiset{p, q} == multiset(Holes(blocks)) + multiset{p}
  {
    hide Holes, Replaced;
    var b, r := blocks[i], blocks[i + 1];
    var c := Block(b.pos, b.size + r.size, true);
    assert blocks[i..i + 2] == [b, r];
    HolesTwo(b, r);
    HolesOne(c);
    HolesReplaced(blocks, i, 2, [c]);
  }

  lemma OneLess(x: multiset<u32>, y: multiset<u32>, idx: multiset<u32>, p: u32, q: u32)
    requires x + multiset{p, q} == y + multiset{p} && q in idx
    ensures y == idx ==> x == idx - multiset{q}
    ensures y == idx + multiset{p} ==> x == idx - multiset{q} + multiset{p}
  {
    assert x == y - multiset{q} by { OneOf(x, y, p, q); }
  }

  lemma OneOf(x: multiset<u32>, y: multiset<u32>, p: u32, q: u32)
    requires x + multiset{p, q} == y + multiset{p}
    ensures x == y - multiset{q}
  {
    assert multiset{p, q} == multiset{q} + multiset{p};
    forall e ensures x[e] == (y - multiset{q})[e] {
      assert (x + multiset{p, q})[e] == (y + multiset{p})[e];
    }
  }

  /** The heap after the freed block was joined with the hole on its right. */
  lemma JoinedHeap(m: seq<byte>, m2: seq<byte>, m': seq<byte>, was: seq<Block>, put: seq<Block>, end: nat, j: nat,
      idx: seq<u32>, idx2: seq<u32>, k: nat, less: (u32, u32) -> bool)
    requires Tiled(m, was, end) && j + 2 < |was| && was[j + 1].hole && end < 0x1_0000_0000
    requires var i, total := First(was, j), was[j].pos + was[j].size - was[First(was, j)].pos;
      && Tiled(m2, put, end) && total >= 0
      && put == Replaced(was, i, j + 1 - i, [Block(was[i].pos, total, true)]) && FreedAt(m, m2, was, put, j)
      && i + 2 < |put| && put[i] == Block(was[i].pos, total, true) && put[i + 1] == was[j + 1]
      && total + was[j + 1].size < 0x1_0000_0000 && was[i].pos + HEADER <= |m2|
      && m' == Put32(m2, was[i].pos + 8, total + was[j + 1].size)
    requires k < |idx| && idx[k] == was[j + 1].pos && idx2 == Omitted(idx, k)
    requires First(was, j) < j ==> Indexed(idx, put)
    requires First(was, j) == j ==> forall less, p: u32 :: p == was[j].pos ==> Indexed(Inserted(idx, p, less), put)
    ensures var i := First(was, j);
      && JoinedAt(m, m', was, Joined(put, i), j, end) && !Tiled(m', Joined(put, i), end)
      && (i < j ==> Indexed(idx2, Joined(put, i)))
      && (i == j && was[j].pos < 0x1_0000_0000 ==> Indexed(Inserted(idx2, was[j].pos, less), Joined(put, i)))
  {
    hide Tiled, AlteredOnly, Indexed, Inserted, Omitted, Put32, Stale;
    var i := First(was, j);
    RightOf(m2, put, end, i);
    JoinedStale(m2, m', put, end, i, put[i].size + put[i + 1].size);
    SameButTwice(m, m2, m', was[i].pos, was[j + 1].pos);
    JoinedBlocks(was, put, i, j);
    StaleBroken(m', Joined(put, i), end, i, was[j + 1].pos, Joined(put, i));
    JoinedIndexed(put, i, idx, k, i == j, less);
  }

  lemma JoinedBlocks(was: seq<Block>, put: seq<Block>, i: nat, j: nat)
    requires i <= j && j + 2 < |was| && i + 1 < |put| && put[i].hole
    requires put == Replaced(was, i, j + 1 - i, [put[i]]) && put[i + 1] == was[j + 1]
    ensures Joined(put, i) == Replaced(was, i, j + 2 - i, [Block(put[i].pos, put[i].size + was[j + 1].size, true)])
  {
  }

  // ----- what the memory says

  /** The blocks lie in a row, each with its header. */
  ghost predicate Headed(m: seq<byte>, blocks: seq<Block>, end: nat) {
    && Row(blocks, START, end)
    && forall k :: 0 <= k < |blocks| ==> HeadedBlock(m, blocks[k])
  }

  ghost predicate HeadedBlock(m: seq<byte>, b: Block) { b.size >= HEADER + FOOTER && Header(m, b.pos, b.hole, b.size) }

  lemma {:induction false} HeadedSame(m: seq<byte>, a: seq<Block>, b: seq<Block>, end: nat, n: nat)
    requires Headed(m, a, end) && Headed(m, b, end) && n <= |a|
    ensures n <= |b| && a[..n] == b[..n]
  {
    hide Header;
    if n > 0 {
      HeadedSame(m, a, b, end, n - 1);
      HeadedEnds(m, a, end, n - 1);
      HeadedNext(m, a, b, end, n - 1);
      assert a[..n] == a[..n - 1] + [a[n - 1]] && b[..n] == b[..n - 1] + [b[n - 1]];
    }
  }

  lemma HeadedNext(m: seq<byte>, a: seq<Block>, b: seq<Block>, end: nat, n: nat)
    requires Headed(m, a, end) && Headed(m, b, end) && n < |a| && n <= |b| && a[..n] == b[..n] && a[n].pos < end
    ensures n < |b| && a[n] == b[n]
  {
    if n > 0 {
      assert a[n - 1] == a[..n][n - 1] == b[..n][n - 1] == b[n - 1];
      assert Follows(a, n - 1);
      if n < |b| {
        assert Follows(b, n - 1);
      }
    }
    assert HeadedBlock(m, a[n]) && (n < |b| ==> HeadedBlock(m, b[n]));
  }

  /** Every block begins inside the heap. */
  lemma {:induction false} HeadedEnds(m: seq<byte>, a: seq<Block>, end: nat, n: nat)
    requires Headed(m, a, end) && n < |a|
    ensures a[n].pos < end
    decreases |a| - n
  {
    hide Header;
    assert HeadedBlock(m, a[n]);
    if n + 1 < |a| {
      HeadedEnds(m, a, end, n + 1);
      assert Follows(a, n);
    }
  }

  /** The memory alone says which blocks there are. */
  lemma BlocksUnique(m: seq<byte>, a: seq<Block>, b: seq<Block>, end: nat)
    requires Headed(m, a, end) && Headed(m, b, end)
    ensures a == b
  {
    hide Headed;
    HeadedSame(m, a, b, end, |a|);
    HeadedSame(m, b, a, end, |b|);
    assert a == a[..|a|] && b == b[..|b|];
  }

  lemma TiledHeaded(m: seq<byte>, blocks: seq<Block>, end: nat)
    requires Tiled(m, blocks, end)
    ensures Headed(m, blocks, end)
  {
    hide Header, Footer, Row;
    forall k | 0 <= k < |blocks| ensures HeadedBlock(m, blocks[k]) {
      assert Tagged(m, blocks[k], k == |blocks| - 1);
    }
  }

  lemma StaleHeaded(m: seq<byte>, blocks: seq<Block>, end: nat, i: nat, inner: nat)
    requires Stale(m, blocks, end, i, inner)
    ensures Headed(m, blocks, end)
  {
    hide Header, Footer, Row;
    forall k | 0 <= k < |blocks| ensures HeadedBlock(m, blocks[k]) {
      assert k != i ==> Tagged(m, blocks[k], k == |blocks| - 1);
    }
  }

  /** After a join with the hole on the right no row of blocks tiles the heap. */
  lemma StaleBroken(m: seq<byte>, blocks: seq<Block>, end: nat, i: nat, inner: nat, other: seq<Block>)
    requires Stale(m, blocks, end, i, inner)
    ensures !Tiled(m, other, end)
  {
    hide Tagged, Row;
    if Tiled(m, other, end) {
      StaleHeaded(m, blocks, end, i, inner);
      TiledHeaded(m, other, end);
      TiledFooters(m, other, end);
      BlocksUnique(m, blocks, other, end);
    }
  }

  lemma TiledFooters(m: seq<byte>, blocks: seq<Block>, end: nat)
    requires Tiled(m, blocks, end)
    ensures forall k :: 0 <= k < |blocks| - 1 ==> Footer(m, blocks[k].pos + blocks[k].size - FOOTER, blocks[k].pos)
  {
    hide Header, Footer, Row;
    forall k | 0 <= k < |blocks| - 1
      ensures Footer(m, blocks[k].pos + blocks[k].size - FOOTER, blocks[k].pos)
    {
      assert Tagged(m, blocks[k], false);
    }
  }

  /**
   * What heap_free of the block behind such a hole finds in front of it: a footer that leads to a header
   * marked as a hole, which is that of no block of the heap.
   */
  lemma StaleLeads(m: seq<byte>, blocks: seq<Block>, end: nat, i: nat, inner: nat)
    requires Stale(m, blocks, end, i, inner)
    ensures var p := blocks[i + 1].pos;
      && 8 <= p <= |m| && Get32(m, p - 8) == 0x1238_90AB && Get32(m, p - 4) == inner
      && inner + 5 <= |m| && m[inner + 4] == 1
    ensures forall k :: 0 <= k < |blocks| ==> blocks[k].pos != inner
  {
    assert Follows(blocks, i) && StaleHole(m, blocks[i], inner);
    StaleHeaded(m, blocks, end, i, inner);
    forall k | 0 <= k < |blocks| ensures blocks[k].pos != inner {
      if k < i {
        HeadedOrder(m, blocks, end, k, i);
      } else if k > i {
        HeadedOrder(m, blocks, end, i, k);
      }
    }
  }

  lemma {:induction false} HeadedOrder(m: seq<byte>, blocks: seq<Block>, end: nat, i: nat, j: nat)
    requires Headed(m, blocks, end) && i < j < |blocks|
    ensures blocks[i].pos + blocks[i].size <= blocks[j].pos
    decreases j
  {
    hide Header;
    assert Follows(blocks, j - 1) && HeadedBlock(m, blocks[j - 1]);
    if i < j - 1 {
      HeadedOrder(m, blocks, end, i, j - 1);
    }
  }

  /** Block j became one hole with the one on its right, whose own bytes did not change. */
  ghost predicate JoinedAt(m: seq<byte>, m': seq<byte>, blocks: seq<Block>, blocks': seq<Block>, j: nat, end: nat) {
    && j + 2 < |blocks|
    && var i, r := First(blocks, j), blocks[j + 1];
      && blocks[i].pos <= r.pos
      && blocks' == Replaced(blocks, i, j + 2 - i, [Block(blocks[i].pos, r.pos + r.size - blocks[i].pos, true)])
      && AlteredOnly(m, m', blocks[i].pos, r.pos) && Stale(m', blocks', end, i, r.pos)
  }

  /** Block j became a hole, one with the hole on its left if there is one, and nothing changed outside. */
  ghost predicate FreedAt(m: seq<byte>, m': seq<byte>, blocks: seq<Block>, blocks': seq<Block>, j: nat)
  {
    j < |blocks| &&
    var b := blocks[j];
    if j > 0 && blocks[j - 1].hole then
      var l := blocks[j - 1];
      && blocks' == Replaced(blocks, j - 1, 2, [Block(l.pos, l.size + b.size, true)])
      && AlteredOnly(m, m', l.pos, b.pos + b.size)
    else blocks' == Replaced(blocks, j, 1, [Block(b.pos, b.size, true)]) && AlteredOnly(m, m', b.pos, b.pos + b.size)
  }

  lemma LiveBlock(m: seq<byte>, blocks: seq<Block>, end: nat, j: nat)
    requires Tiled(m, blocks, end) && j + 1 < |blocks| && !blocks[j].hole
    ensures var b := blocks[j];
      && START <= b.pos && b.pos + b.size < end <= |m| && b.size >= HEADER + FOOTER
      && Get32(m, b.pos + 8) == b.size && m[b.pos + 4] == 0 && Footer(m, b.pos + b.size - FOOTER, b.pos)
  {
    assert Tagged(m, blocks[j], false);
    EndsInside(m, blocks, end, j);
  }

  /** What stands in front of block j: the footer of its neighbour, or nothing that looks like one. */
  lemma LeftOf(m: seq<byte>, blocks: seq<Block>, end: nat, j: nat)
    requires Tiled(m, blocks, end) && j < |blocks|
    ensures j == 0 ==> blocks[j].pos == START
    ensures j > 0 ==> var l := blocks[j - 1];
      && l.pos + l.size == blocks[j].pos && START <= l.pos && l.size >= HEADER + FOOTER
      && Footer(m, blocks[j].pos - FOOTER, l.pos) && Header(m, l.pos, l.hole, l.size)
  {
    if j > 0 {
      assert Tagged(m, blocks[j - 1], false) && Follows(blocks, j - 1);
      EndsInside(m, blocks, end, j - 1);
    }
  }


  /** The freed block's own tags, and its neighbour's, once it is marked a hole. */
  lemma MarkedHole(m: seq<byte>, m1: seq<byte>, blocks: seq<Block>, end: nat, j: nat)
    requires Tiled(m, blocks, end) && j + 1 < |blocks| && !blocks[j].hole
    requires blocks[j].pos + 4 < |m| && m1 == m[blocks[j].pos + 4 := 1]
    ensures var b := blocks[j];
      && Header(m1, b.pos, true, b.size) && Footer(m1, b.pos + b.size - FOOTER, b.pos)
      && AlteredOnly(m, m1, b.pos, b.pos + b.size)
      && START <= b.pos && b.pos + b.size < end && b.size >= HEADER + FOOTER
    ensures j == 0 ==> Get32(m1, 0) == Get32(m, 0)
    ensures j > 0 ==> var l := blocks[j - 1];
      && Footer(m1, blocks[j].pos - FOOTER, l.pos) && Header(m1, l.pos, l.hole, l.size)
  {
    LiveBlock(m, blocks, end, j);
    LeftOf(m, blocks, end, j);
    assert Tagged(m, blocks[j], false);
    var b := blocks[j];
    FooterKept(m, m1, b.pos + b.size - FOOTER, b.pos);
    if j > 0 {
      var l := blocks[j - 1];
      FooterKept(m, m1, b.pos - FOOTER, l.pos);
      HeaderKept(m, m1, l.pos, l.hole, l.size);
    }
  }

  lemma MergedTags(m: seq<byte>, m1: seq<byte>, m2: seq<byte>, left: nat, leftSize: nat, header: nat, size: nat)
    requires START <= left && leftSize >= HEADER + FOOTER && size >= HEADER + FOOTER && left + leftSize == header
    requires header + size <= |m| < 0x1_0000_0000
    requires Header(m, left, true, leftSize) && Footer(m, header + size - FOOTER, header)
    requires m1 == Put32(m, header + size - FOOTER + 4, left) && m2 == Put32(m1, left + 8, leftSize + size)
    ensures Tagged(m2, Block(left, leftSize + size, true), false) && AlteredOnly(m, m2, left, header + size)
  {
    hide Put32, Get32, AlteredOnly;
    var q := header + size - FOOTER;
    MergedFooter(m, m1, m2, q, left, header, leftSize + size);
    MergedHeader(m, m1, m2, q, left, leftSize, leftSize + size);
    Only32(m, q + 4, left, left, header + size);
    Only32(m1, left + 8, leftSize + size, left, header + size);
    SameButTwice(m, m1, m2, left, header + size);
  }

  lemma SizeKept(m: seq<byte>, m1: seq<byte>, left: u32, size: nat, p: nat)
    requires Header(m, left, true, size) && left + HEADER <= p && p + 4 <= |m| && m1 == Put32(m, p, left)
    ensures Get32(m1, left + 8) == size
  {
    hide Put32, Get32;
    Put32Get32(m, p, left, left + 8);
  }

  lemma Only32(m: seq<byte>, p: nat, v: u32, a: nat, b: nat)
    requires a <= p && p + 4 <= b <= |m|
    ensures AlteredOnly(m, Put32(m, p, v), a, b)
  {
  }

  lemma MergedFooter(m: seq<byte>, m1: seq<byte>, m2: seq<byte>, q: nat, left: u32, header: nat, size: u32)
    requires left + HEADER <= q && q + FOOTER <= |m| && Footer(m, q, header)
    requires m1 == Put32(m, q + 4, left) && m2 == Put32(m1, left + 8, size)
    ensures Footer(m2, q, left)
  {
    hide Put32, Get32;
    Put32Get32(m, q + 4, left, q);
    Put32Get32(m, q + 4, left, q + 4);
    Put32Get32(m1, left + 8, size, q);
    Put32Get32(m1, left + 8, size, q + 4);
  }

  lemma MergedHeader(m: seq<byte>, m1: seq<byte>, m2: seq<byte>, q: nat, left: u32, leftSize: nat, size: u32)
    requires left + HEADER <= q && q + FOOTER <= |m| && Header(m, left, true, leftSize)
    requires m1 == Put32(m, q + 4, left) && m2 == Put32(m1, left + 8, size)
    ensures Header(m2, left, true, size)
  {
    Put32Get32(m, q + 4, left, left);
    Put32Get32(m1, left + 8, size, left + 8);
    Put32Get32(m1, left + 8, size, left);
    hide Get32;
  }

  /** The heap after a merge; the index is right as it is. */
  lemma MergedHeap(m: seq<byte>, m1: seq<byte>, m2: seq<byte>, blocks: seq<Block>, end: nat, j: nat, idx: seq<u32>)
    requires Tiled(m, blocks, end) && 0 < j && j + 1 < |blocks| && !blocks[j].hole && blocks[j - 1].hole
    requires end < 0x1_0000_0000
    requires var l, b := blocks[j - 1], blocks[j];
      && AlteredOnly(m, m1, b.pos, b.pos + b.size) && AlteredOnly(m1, m2, l.pos, b.pos + b.size)
      && Tagged(m2, Block(l.pos, l.size + b.size, true), false)
    requires Indexed(idx, blocks)
    ensures var l, b := blocks[j - 1], blocks[j];
      var put := Replaced(blocks, j - 1, 2, [Block(l.pos, l.size + b.size, true)]);
      Tiled(m2, put, end) && Indexed(idx, put) && FreedAt(m, m2, blocks, put, j) && Get32(m2, 0) == Get32(m, 0)
  {
    hide Tagged, Tiled, AlteredOnly, Holes;
    var l, b := blocks[j - 1], blocks[j];
    var c := Block(l.pos, l.size + b.size, true);
    LeftOf(m, blocks, end, j);
    EndsInside(m, blocks, end, j);
    SameButWider(m, m1, b.pos, b.pos + b.size, l.pos, b.pos + b.size);
    SameButTwice(m, m1, m2, l.pos, b.pos + b.size);
    GuardKept(m, m2, l.pos, b.pos + b.size);
    NotLast(m2, [c]);
    ReplacedTiled(m, m2, blocks, end, j - 1, 2, [c], l.pos, b.pos + b.size);
    assert blocks[j - 1..j - 1 + 2] == [l, b];
    HolesTwo(l, b);
    HolesOne(c);
    HolesReplaced(blocks, j - 1, 2, [c]);
    CancelAll(multiset(Holes(Replaced(blocks, j - 1, 2, [c]))), multiset(idx), multiset(HoleOf(c)));
  }

  lemma CancelAll(x: multiset<u32>, y: multiset<u32>, c: multiset<u32>)
    requires x + c == y + c
    ensures x == y
  {
    assert x == x + c - c && y == y + c - c;
  }

  /** The heap after a block becomes a hole of its own. */
  lemma AloneHeap(m: seq<byte>, m1: seq<byte>, blocks: seq<Block>, end: nat, j: nat, idx: seq<u32>,
      less: (u32, u32) -> bool)
    requires Tiled(m, blocks, end) && j + 1 < |blocks| && !blocks[j].hole && !(j > 0 && blocks[j - 1].hole)
    requires end < 0x1_0000_0000
    requires var b := blocks[j];
      && START <= b.pos && b.pos + b.size < end && b.size >= HEADER + FOOTER
      && AlteredOnly(m, m1, b.pos, b.pos + b.size) && Header(m1, b.pos, true, b.size)
      && Footer(m1, b.pos + b.size - FOOTER, b.pos)
    requires Indexed(idx, blocks)
    ensures var b := blocks[j];
      var put := Replaced(blocks, j, 1, [Block(b.pos, b.size, true)]);
      && Tiled(m1, put, end) && Indexed(Inserted(idx, b.pos, less), put) && FreedAt(m, m1, blocks, put, j)
      && Get32(m1, 0) == Get32(m, 0)
  {
    hide Tagged, Tiled, AlteredOnly, Indexed, Inserted, Header, Footer, Replaced;
    var b := blocks[j];
    var c := Block(b.pos, b.size, true);
    LiveBlock(m, blocks, end, j);
    TaggedIs(m1, c);
    NotLast(m1, [c]);
    GuardKept(m, m1, b.pos, b.pos + b.size);
    OneRow(c);
    ReplacedTiled(m, m1, blocks, end, j, 1, [c], b.pos, b.pos + b.size);
    AloneIndex(blocks, j, c, idx, less);
  }

  lemma OneRow(c: Block)
    ensures Row([c], c.pos, c.pos + c.size)
  {
  }

  lemma TaggedIs(m: seq<byte>, b: Block)
    requires b.size >= HEADER + FOOTER && Header(m, b.pos, b.hole, b.size) && Footer(m, b.pos + b.size - FOOTER, b.pos)
    ensures Tagged(m, b, false)
  {
  }

  lemma AloneIndex(blocks: seq<Block>, j: nat, c: Block, idx: seq<u32>, less: (u32, u32) -> bool)
    requires j < |blocks| && !blocks[j].hole && c.hole && c.pos == blocks[j].pos < 0x1_0000_0000 && Indexed(idx, blocks)
    ensures Indexed(Inserted(idx, c.pos, less), Replaced(blocks, j, 1, [c]))
  {
    hide Holes, Inserted, Replaced;
    assert blocks[j..j + 1] == [blocks[j]];
    HolesOne(blocks[j]);
    HolesOne(c);
    HolesReplaced(blocks, j, 1, [c]);
    InsertedItems(idx, c.pos, less);
  }

  /**
   * Hole i was carved; the address is that of its first byte behind the header, and nothing outside
   * the hole changed.
   */
  ghost predicate AllocatedAt(m: seq<byte>, m': seq<byte>, blocks: seq<Block>, blocks': seq<Block>, i: nat, need: nat,
      address: u32) {
    && i < |blocks| && blocks[i].hole && need <= blocks[i].size && address == blocks[i].pos + HEADER
    && blocks' == Replaced(blocks, i, 1, Carved(blocks[i].pos, blocks[i].size, need))
    && AlteredOnly(m, m', blocks[i].pos, blocks[i].pos + blocks[i].size)
  }

  lemma ChosenBy(m: seq<byte>, m': seq<byte>, idx: seq<u32>, idx': seq<u32>, b: Block, need: nat, k: nat)
    requires FirstFit(m, idx, need, k) && idx[k] == b.pos && need <= b.size && b.pos + need < 0x1_0000_0000
    requires if b.size - need < HEADER + FOOTER then idx' == Omitted(idx, k)
             else Filed(m', Omitted(idx, k), idx', b.pos + need)
    ensures Chosen(m, m', idx, idx', b, need)
  {
    hide FirstFit, Filed, Omitted;
    assert ChosenAt(m, m', idx, idx', b, need, k);
  }

  lemma AllocatedBy(m: seq<byte>, m': seq<byte>, blocks: seq<Block>, blocks': seq<Block>, i: nat, need: nat,
      address: u32)
    requires i < |blocks| && blocks[i].hole && need <= blocks[i].size && address == blocks[i].pos + HEADER
    requires blocks' == Replaced(blocks, i, 1, Carved(blocks[i].pos, blocks[i].size, need))
    requires AlteredOnly(m, m', blocks[i].pos, blocks[i].pos + blocks[i].size)
    ensures AllocatedAt(m, m', blocks, blocks', i, need, address) && Fits(blocks, need)
  {
  }

  lemma SizeIs(m: seq<byte>, p: u32)
    requires p + HEADER <= |m|
    ensures SizeAt(m, p) == Get32(m, p + 8)
  {
  }

  lemma HeaderInside(m: seq<byte>, blocks: seq<Block>, end: nat, i: nat)
    requires Tiled(m, blocks, end) && i < |blocks|
    ensures blocks[i].pos + HEADER <= |m|
  {
    assert Tagged(m, blocks[i], i == |blocks| - 1);
  }
}
