/** The bitmap of physical frames: kernel/memory/phys_mem.c. */
module PhysicalMemory {
  const NO_FRAME := 0xFFFF_FFFF

  // ----- bits of a word

  /** 1 << j. */
  function Mask(j: nat): bv32 { if j == 0 then 1 else Mask(j - 1) << 1 }

  predicate Bit(w: bv32, j: nat) { Meets(w, Mask(j)) }

  lemma {:induction false} MaskIs(j: nat)
    requires j < 32
    ensures Mask(j) == 1 << j
  {
    if j > 0 {
      MaskIs(j - 1);
    }
  }

  /** Bit j of a word. */
  lemma BitIs(w: bv32, j: nat)
    requires j < 32
    ensures Bit(w, j) <==> w & (1 << j) != 0
  {
    hide Mask;
    MaskIs(j);
  }

  lemma ShiftedApart(a: bv32, b: bv32)
    ensures a & b == 0 ==> (a << 1) & (b << 1) == 0
    ensures 1 & (a << 1) == 0
  {
  }

  lemma {:induction false} MasksApart(j: nat, k: nat)
    requires j < k
    ensures Mask(j) & Mask(k) == 0
  {
    if j > 0 {
      MasksApart(j - 1, k - 1);
      ShiftedApart(Mask(j - 1), Mask(k - 1));
    } else {
      ShiftedApart(Mask(k - 1), 0);
    }
  }

  lemma {:induction false} ZeroStays(j: nat, k: nat)
    requires j <= k && Mask(j) == 0
    ensures Mask(k) == 0
  {
    if j < k {
      ZeroStays(j, k - 1);
    }
  }

  lemma MaskNotZero(j: nat)
    requires j < 32
    ensures NotZero(Mask(j))
  {
    assert Mask(4) == 0x10 && Mask(8) == 0x100;
    assert Mask(12) == 0x1000 && Mask(16) == 0x1_0000;
    assert Mask(20) == 0x10_0000 && Mask(24) == 0x100_0000;
    assert Mask(28) == 0x1000_0000 && Mask(31) == 0x8000_0000;
    if Mask(j) == 0 {
      ZeroStays(j, 31);
    }
  }

  predicate Meets(w: bv32, m: bv32) { w & m != 0 }

  predicate NotZero(m: bv32) { m != 0 }

  function WithBits(w: bv32, m: bv32): bv32 { w | m }

  function WithoutBits(w: bv32, m: bv32): bv32 { w & !m }

  lemma WithApart(w: bv32, m: bv32, n: bv32)
    requires !Meets(m, n)
    ensures Meets(WithBits(w, m), n) == Meets(w, n)
  {
  }

  lemma WithoutApart(w: bv32, m: bv32, n: bv32)
    requires !Meets(m, n)
    ensures Meets(WithoutBits(w, m), n) == Meets(w, n)
  {
  }

  lemma WithSame(w: bv32, m: bv32)
    requires NotZero(m)
    ensures Meets(WithBits(w, m), m)
  {
  }

  lemma WithoutSame(w: bv32, m: bv32)
    ensures !Meets(WithoutBits(w, m), m)
  {
  }

  lemma AndCommutes(a: bv32, b: bv32)
    ensures a & b == b & a
  {
  }

  lemma Ends(m: bv32)
    requires NotZero(m)
    ensures Meets(0xFFFF_FFFF, m) && !Meets(0, m)
  {
  }

  /** Setting or clearing a bit changes that bit only. */
  lemma BitWritten(w: bv32, j: nat, k: nat)
    requires j < 32 && k < 32
    ensures Bit(WithBits(w, Mask(j)), k) <==> k == j || Bit(w, k)
    ensures Bit(WithoutBits(w, Mask(j)), k) <==> k != j && Bit(w, k)
  {
    hide Mask, Meets, WithBits, WithoutBits, NotZero;
    MaskNotZero(j);
    if k == j {
      WithSame(w, Mask(j));
      WithoutSame(w, Mask(j));
    } else {
      MasksDiffer(j, k);
      WithApart(w, Mask(j), Mask(k));
      WithoutApart(w, Mask(j), Mask(k));
    }
  }

  lemma MasksDiffer(j: nat, k: nat)
    requires j != k
    ensures !Meets(Mask(j), Mask(k))
  {
    hide Mask;
    if j < k {
      MasksApart(j, k);
    } else {
      MasksApart(k, j);
      AndCommutes(Mask(k), Mask(j));
    }
  }

  lemma BitEnds(k: nat)
    requires k < 32
    ensures Bit(0xFFFF_FFFF, k) && !Bit(0, k)
  {
    hide Mask, Meets, NotZero;
    MaskNotZero(k);
    Ends(Mask(k));
  }

  // ----- frames

  /** The marked frames of a bitmap. */
  ghost function Marked(words: seq<bv32>): set<nat> {
    set f: nat | f < 32 * |words| && Bit(words[f / 32], f % 32)
  }

  /** Frame f is bit f % 32 of word f / 32. */
  lemma MarkedIs(words: seq<bv32>, f: nat)
    ensures f in Marked(words) <==> f < 32 * |words| && Bit(words[f / 32], f % 32)
  {
    hide Bit, Mask;
  }

  /** Rewriting the word of a frame marks or unmarks that frame only. */
  lemma MarkedWritten(words: seq<bv32>, f: nat)
    requires f < 32 * |words|
    ensures Marked(words[f / 32 := WithBits(words[f / 32], Mask(f % 32))]) == Marked(words) + {f}
    ensures Marked(words[f / 32 := WithoutBits(words[f / 32], Mask(f % 32))]) == Marked(words) - {f}
  {
    hide Bit, WithBits, WithoutBits, Mask;
    var marked, cleared := words[f / 32 := WithBits(words[f / 32], Mask(f % 32))],
        words[f / 32 := WithoutBits(words[f / 32], Mask(f % 32))];
    forall g: nat | g < 32 * |words|
      ensures g in Marked(marked) <==> g == f || g in Marked(words)
      ensures g in Marked(cleared) <==> g != f && g in Marked(words)
    {
      if g / 32 == f / 32 {
        BitWritten(words[f / 32], f % 32, g % 32);
      }
    }
  }

  lemma NoneMarked(words: seq<bv32>)
    requires forall i :: 0 <= i < |words| ==> words[i] == 0
    ensures Marked(words) == {}
  {
    forall f: nat | f < 32 * |words| ensures f !in Marked(words) {
      BitEnds(f % 32);
    }
  }

  class FrameMap {
    const index: array<bv32>
    var allocatedCount: nat

    /** The count is that of the marked bits; frame numbers fit the 20 bits of a page entry. */
    ghost predicate Valid()
      reads this, index
    {
      allocatedCount == |Marked(index[..])| && 32 * index.Length <= 0x10_0000
    }

    /** pmm_init, with the index taken as so many words, all zero. */
    constructor (words: nat)
      requires 32 * words <= 0x10_0000
      ensures Valid() && fresh(index) && index.Length == words && Marked(index[..]) == {} && allocatedCount == 0
    {
      index := new bv32[words](_ => 0);
      allocatedCount := 0;
      new;
      NoneMarked(index[..]);
    }

    /** _first_unmarked: the least unmarked frame. */
    method FirstUnmarked() returns (frame: nat)
      requires Valid()
      ensures frame == NO_FRAME ==> forall f: nat :: f < 32 * index.Length ==> f in Marked(index[..])
      ensures frame != NO_FRAME ==> frame < 32 * index.Length && frame !in Marked(index[..])
      ensures frame != NO_FRAME ==> forall f: nat :: f < frame ==> f in Marked(index[..])
    {
      hide Bit, Mask;
      for i := 0 to index.Length
        invariant forall f: nat :: f < 32 * i ==> f in Marked(index[..])
      {
        if index[i] != 0xFFFF_FFFF {
          for j := 0 to 32
            invariant forall f: nat :: f < 32 * i + j ==> f in Marked(index[..])
          {
            if !Bit(index[i], j) {
              return i * 32 + j;
            }
          }
        } else {
          forall f: nat | 32 * i <= f < 32 * i + 32 ensures f in Marked(index[..]) {
            BitEnds(f % 32);
          }
        }
      }
      frame := NO_FRAME;
    }

    /** _mark_frame. */
    method MarkFrame(frame: nat, alloc: bool)
      requires frame < 32 * index.Length && (alloc <==> frame !in Marked(index[..]))
      modifies index
      ensures Marked(index[..]) == if alloc then old(Marked(index[..])) + {frame} else old(Marked(index[..])) - {frame}
    {
      hide Bit, Mask, WithBits, WithoutBits, Marked;
      MarkedWritten(index[..], frame);
      ghost var words := index[..];
      if alloc {
        index[frame / 32] := WithBits(index[frame / 32], Mask(frame % 32));
        assert index[..] == words[frame / 32 := WithBits(words[frame / 32], Mask(frame % 32))];
      } else {
        index[frame / 32] := WithoutBits(index[frame / 32], Mask(frame % 32));
        assert index[..] == words[frame / 32 := WithoutBits(words[frame / 32], Mask(frame % 32))];
      }
    }

    /** pmm_alloc_frame; it panics when every frame is marked. */
    method AllocFrame() returns (ok: bool, frame: nat)
      requires Valid()
      modifies this, index
      ensures Valid()
      ensures !ok ==>
                && Marked(index[..]) == old(Marked(index[..]))
                && forall f: nat :: f < 32 * index.Length ==> f in Marked(index[..])
      ensures ok ==>
                && frame < 32 * index.Length && frame !in old(Marked(index[..]))
                && Marked(index[..]) == old(Marked(index[..])) + {frame}
      ensures ok ==> forall f: nat :: f < frame ==> f in old(Marked(index[..]))
    {
      hide Marked;
      frame := FirstUnmarked();
      ok := frame != NO_FRAME;
      if ok {
        MarkFrame(frame, true);
        allocatedCount := allocatedCount + 1;
      }
    }

    /** pmm_free_frame. */
    method FreeFrame(frame: nat)
      requires Valid() && frame in Marked(index[..])
      modifies this, index
      ensures Valid() && Marked(index[..]) == old(Marked(index[..])) - {frame}
    {
      MarkFrame(frame, false);
      allocatedCount := allocatedCount - 1;
    }
  }
}
