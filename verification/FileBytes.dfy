/** A row of sectors as a row of bytes, and what writing into it leaves. */
module FileBytes {
  import opened Words

  /** Byte k of the sectors; zero behind the last. */
  function ByteOf(secs: seq<Sector>, k: nat): byte {
    if k / SECTOR_SIZE < |secs| then secs[k / SECTOR_SIZE][k % SECTOR_SIZE] else 0
  }

  /** The n bytes from p on. */
  function Bytes(secs: seq<Sector>, p: nat, n: nat): (r: seq<byte>)
    ensures |r| == n && forall k :: 0 <= k < n ==> r[k] == ByteOf(secs, p + k)
  {
    seq<byte>(n, k requires 0 <= k < n => ByteOf(secs, p + k))
  }

  /** The bytes in order, 512 to a sector. */
  lemma ByteAt(secs: seq<Sector>, p: nat, n: nat, k: nat)
    requires k < n && p + n <= 512 * |secs|
    ensures |Bytes(secs, p, n)| == n && (p + k) / 512 < |secs|
    ensures Bytes(secs, p, n)[k] == secs[(p + k) / 512][(p + k) % 512]
  {
  }

  /** Part of a sector is part of the row. */
  lemma PartOfSector(secs: seq<Sector>, x: nat, from: nat, n: nat)
    requires x < |secs| && from + n <= SECTOR_SIZE
    ensures secs[x][from..from + n] == Bytes(secs, SECTOR_SIZE * x + from, n)
  {
    var s, t := secs[x][from..from + n], Bytes(secs, SECTOR_SIZE * x + from, n);
    forall k | 0 <= k < n ensures s[k] == t[k] {
      var p := SECTOR_SIZE * x + from + k;
      assert p / SECTOR_SIZE == x && p % SECTOR_SIZE == from + k;
    }
  }

  /** Whole sectors are part of the row. */
  lemma RunOfSectors(secs: seq<Sector>, x: nat, n: nat)
    requires x + n <= |secs|
    ensures Bytes(secs[x..x + n], 0, SECTOR_SIZE * n) == Bytes(secs, SECTOR_SIZE * x, SECTOR_SIZE * n)
  {
    var s, t := Bytes(secs[x..x + n], 0, SECTOR_SIZE * n), Bytes(secs, SECTOR_SIZE * x, SECTOR_SIZE * n);
    forall k | 0 <= k < SECTOR_SIZE * n ensures s[k] == t[k] {
      var p := SECTOR_SIZE * x + k;
      assert p / SECTOR_SIZE == x + k / SECTOR_SIZE && p % SECTOR_SIZE == k % SECTOR_SIZE;
    }
  }

  /** Bytes in a row. */
  lemma BytesJoin(secs: seq<Sector>, p: nat, m: nat, n: nat)
    ensures Bytes(secs, p, m) + Bytes(secs, p + m, n) == Bytes(secs, p, m + n)
  {
    hide ByteOf;
  }

  // ----- writing

  /** From secs to secs' the sectors from x on become those of run, and the row may get longer. */
  ghost predicate WroteAt(secs: seq<Sector>, secs': seq<Sector>, x: nat, run: seq<Sector>) {
    && |secs| <= |secs'| && x <= |secs| && x + |run| <= |secs'|
    && forall j :: 0 <= j < |secs'| ==>
         && (x <= j < x + |run| ==> secs'[j] == run[j - x])
         && (j < |secs| && !(x <= j < x + |run|) ==> secs'[j] == secs[j])
  }

  /** Of the bytes to be written at off, the first n are in place and nothing else of secs0 has changed. */
  ghost predicate Progress(secs0: seq<Sector>, secs: seq<Sector>, off: nat, bytes: seq<byte>, n: nat) {
    && |secs0| <= |secs| && n <= |bytes| && off + n <= SECTOR_SIZE * |secs|
    && (forall k: nat :: off <= k < off + n ==> ByteOf(secs, k) == bytes[k - off])
    && (forall k: nat :: k < SECTOR_SIZE * |secs0| && !(off <= k < off + n) ==> ByteOf(secs, k) == ByteOf(secs0, k))
  }

  lemma ProgressStart(secs: seq<Sector>, off: nat, bytes: seq<byte>)
    requires off <= SECTOR_SIZE * |secs|
    ensures Progress(secs, secs, off, bytes, 0)
  {
  }

  /** The sectors cut out of the bytes from p on. */
  function Cut(bytes: seq<byte>, p: nat, n: nat): (run: seq<Sector>)
    requires p + SECTOR_SIZE * n <= |bytes|
    ensures |run| == n
    ensures forall i :: 0 <= i < n ==> run[i] == bytes[p + SECTOR_SIZE * i..p + SECTOR_SIZE * i + SECTOR_SIZE]
  {
    seq(n, i requires 0 <= i < n => bytes[p + SECTOR_SIZE * i..p + SECTOR_SIZE * i + SECTOR_SIZE])
  }

  /** Byte k of the row after a write. */
  lemma ByteAfter(secs: seq<Sector>, secs': seq<Sector>, x: nat, run: seq<Sector>, k: nat)
    requires WroteAt(secs, secs', x, run)
    ensures SECTOR_SIZE * x <= k < SECTOR_SIZE * (x + |run|) ==>
              ByteOf(secs', k) == run[k / SECTOR_SIZE - x][k % SECTOR_SIZE]
    ensures k < SECTOR_SIZE * |secs| && !(SECTOR_SIZE * x <= k < SECTOR_SIZE * (x + |run|)) ==>
              ByteOf(secs', k) == ByteOf(secs, k)
  {
    var j := k / SECTOR_SIZE;
    assert SECTOR_SIZE * j <= k < SECTOR_SIZE * j + SECTOR_SIZE;
  }

  /** Whole sectors written. */
  lemma ProgressWhole(secs0: seq<Sector>, secs: seq<Sector>, secs': seq<Sector>, off: nat, bytes: seq<byte>, n: nat,
      x: nat, run: seq<Sector>)
    requires Progress(secs0, secs, off, bytes, n) && off + n == SECTOR_SIZE * x && n + SECTOR_SIZE * |run| <= |bytes|
    requires run == Cut(bytes, n, |run|) && WroteAt(secs, secs', x, run)
    ensures Progress(secs0, secs', off, bytes, n + SECTOR_SIZE * |run|)
  {
    hide ByteOf, WroteAt, Cut;
    forall k: nat | k < SECTOR_SIZE * |secs0| || off <= k < off + n + SECTOR_SIZE * |run|
      ensures if off <= k < off + n + SECTOR_SIZE * |run| then ByteOf(secs', k) == bytes[k - off]
              else ByteOf(secs', k) == ByteOf(secs0, k)
    {
      ByteAfter(secs, secs', x, run, k);
      if off + n <= k < off + n + SECTOR_SIZE * |run| {
        CutByte(bytes, n, |run|, x, off, k);
      }
    }
    assert |secs| <= |secs'| && x + |run| <= |secs'| by { WroteLength(secs, secs', x, run); }
  }

  lemma WroteLength(secs: seq<Sector>, secs': seq<Sector>, x: nat, run: seq<Sector>)
    requires WroteAt(secs, secs', x, run)
    ensures |secs| <= |secs'| && x + |run| <= |secs'|
  {
  }

  lemma CutByte(bytes: seq<byte>, n: nat, m: nat, x: nat, off: nat, k: nat)
    requires n + SECTOR_SIZE * m <= |bytes| && off + n == SECTOR_SIZE * x && off + n <= k < off + n + SECTOR_SIZE * m
    ensures 0 <= k / SECTOR_SIZE - x < m && Cut(bytes, n, m)[k / SECTOR_SIZE - x][k % SECTOR_SIZE] == bytes[k - off]
  {
    var i := k / SECTOR_SIZE - x;
    assert SECTOR_SIZE * (x + i) + k % SECTOR_SIZE == k;
    var s := Cut(bytes, n, m)[i];
    assert s == bytes[n + SECTOR_SIZE * i..n + SECTOR_SIZE * i + SECTOR_SIZE];
  }

  /** The sector image with bytes laid over it. */
  function Patched(base: Sector, from: nat, part: seq<byte>): (r: Sector)
    requires from + |part| <= SECTOR_SIZE
    ensures forall i :: 0 <= i < SECTOR_SIZE ==> r[i] == if from <= i < from + |part| then part[i - from] else base[i]
  {
    base[..from] + part + base[from + |part|..]
  }

  /** Part of one sector written, over what it held. */
  lemma ProgressPart(secs0: seq<Sector>, secs: seq<Sector>, secs': seq<Sector>, off: nat, bytes: seq<byte>, n: nat,
      x: nat, from: nat, c: nat, base: Sector)
    requires Progress(secs0, secs, off, bytes, n) && off + n == SECTOR_SIZE * x + from && from + c <= SECTOR_SIZE
    requires n + c <= |bytes|
    requires x < |secs| && c < SECTOR_SIZE ==> base == secs[x]
    requires WroteAt(secs, secs', x, [Patched(base, from, bytes[n..n + c])])
    ensures Progress(secs0, secs', off, bytes, n + c)
  {
    var image := Patched(base, from, bytes[n..n + c]);
    WroteLength(secs, secs', x, [image]);
    hide ByteOf, WroteAt;
    forall k: nat | k < SECTOR_SIZE * |secs0| || off <= k < off + n + c
      ensures if off <= k < off + n + c then ByteOf(secs', k) == bytes[k - off]
              else ByteOf(secs', k) == ByteOf(secs0, k)
    {
      PatchedByte(secs, secs', x, from, bytes[n..n + c], base, k);
    }
  }

  lemma PatchedByte(secs: seq<Sector>, secs': seq<Sector>, x: nat, from: nat, part: seq<byte>, base: Sector, k: nat)
    requires from + |part| <= SECTOR_SIZE && (x < |secs| && |part| < SECTOR_SIZE ==> base == secs[x])
    requires WroteAt(secs, secs', x, [Patched(base, from, part)])
    ensures SECTOR_SIZE * x + from <= k < SECTOR_SIZE * x + from + |part| ==>
              ByteOf(secs', k) == part[k - SECTOR_SIZE * x - from]
    ensures k < SECTOR_SIZE * |secs| && !(SECTOR_SIZE * x + from <= k < SECTOR_SIZE * x + from + |part|) ==>
              ByteOf(secs', k) == ByteOf(secs, k)
  {
    var image := Patched(base, from, part);
    assert SECTOR_SIZE * (x + |[image]|) == SECTOR_SIZE * x + SECTOR_SIZE;
    ByteAfter(secs, secs', x, [image], k);
    hide WroteAt;
    if SECTOR_SIZE * x <= k < SECTOR_SIZE * x + SECTOR_SIZE {
      assert k / SECTOR_SIZE == x && k % SECTOR_SIZE == k - SECTOR_SIZE * x;
      assert [image][0] == image;
    }
  }

  /** The content after all of it is written. */
  lemma ProgressDone(secs0: seq<Sector>, secs: seq<Sector>, off: nat, bytes: seq<byte>, n: nat, len: nat)
    requires Progress(secs0, secs, off, bytes, n) && off <= len <= SECTOR_SIZE * |secs0|
    ensures var c := Bytes(secs0, 0, len);
      Bytes(secs, 0, if off + n > len then off + n else len)
      == c[..off] + bytes[..n] + if off + n < len then c[off + n..] else []
  {
    hide ByteOf;
  }
}
