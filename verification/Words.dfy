/** Bytes, little-endian words and sectors. */
module Words {
  type byte = x: int | 0 <= x < 0x100
  type u16 = x: int | 0 <= x < 0x1_0000
  type u32 = x: int | 0 <= x < 0x1_0000_0000

  const SECTOR_SIZE := 512

  type Sector = s: seq<byte> | |s| == SECTOR_SIZE witness seq(SECTOR_SIZE, _ => 0)

  function Get16(s: seq<byte>, p: nat): u16
    requires p + 2 <= |s|
  {
    s[p + 1] as int * 0x100 + s[p] as int
  }

  function Get32(s: seq<byte>, p: nat): u32
    requires p + 4 <= |s|
  {
    s[p + 3] as int * 0x100_0000 + s[p + 2] as int * 0x1_0000 + s[p + 1] as int * 0x100 + s[p] as int
  }

  /** The low 16 bits of v, stored at p. */
  function Put16(s: seq<byte>, p: nat, v: u32): (r: seq<byte>)
    requires p + 2 <= |s|
  {
    s[p := v % 0x100][p + 1 := v / 0x100 % 0x100]
  }

  function Put32(s: seq<byte>, p: nat, v: u32): (r: seq<byte>)
    requires p + 4 <= |s|
  {
    s[p := v % 0x100][p + 1 := v / 0x100 % 0x100][p + 2 := v / 0x1_0000 % 0x100][p + 3 := v / 0x100_0000]
  }

  /** The low byte comes first. */
  lemma LowByteFirst(s: seq<byte>, p: nat)
    ensures p + 2 <= |s| ==> Get16(s, p) == s[p] as int + 0x100 * s[p + 1] as int
    ensures p + 4 <= |s| ==>
      Get32(s, p) == s[p] as int + 0x100 * s[p + 1] as int + 0x1_0000 * s[p + 2] as int + 0x100_0000 * s[p + 3] as int
  {
  }

  lemma Bytes16(v: u16)
    ensures v == v / 0x100 * 0x100 + v % 0x100
    ensures v / 0x100 < 0x100
  {
  }

  lemma Bytes32(v: u32)
    ensures v == v / 0x100_0000 * 0x100_0000 + v / 0x1_0000 % 0x100 * 0x1_0000 + v / 0x100 % 0x100 * 0x100 + v % 0x100
  {
    var w := v / 0x100;
    var x := w / 0x100;
    assert v / 0x1_0000 == x && v / 0x100_0000 == x / 0x100;
    assert v == w * 0x100 + v % 0x100 && w == x * 0x100 + w % 0x100 && x == x / 0x100 * 0x100 + x % 0x100;
  }

  /** What was stored is read back, and no other word of the sector changes. */
  lemma Put32Get32(s: seq<byte>, p: nat, v: u32, q: nat)
    requires p + 4 <= |s| && q + 4 <= |s| && (p == q || p + 4 <= q || q + 4 <= p)
    ensures |Put32(s, p, v)| == |s|
    ensures Get32(Put32(s, p, v), q) == if p == q then v else Get32(s, q)
  {
    var r := Put32(s, p, v);
    if p == q {
      Bytes32(v);
    } else {
      assert r[q] == s[q] && r[q + 1] == s[q + 1] && r[q + 2] == s[q + 2] && r[q + 3] == s[q + 3];
    }
  }

  lemma Put16Get16(s: seq<byte>, p: nat, v: u32, q: nat)
    requires p + 2 <= |s| && q + 2 <= |s| && (p == q || p + 2 <= q || q + 2 <= p)
    ensures |Put16(s, p, v)| == |s|
    ensures Get16(Put16(s, p, v), q) == if p == q then v % 0x1_0000 else Get16(s, q)
  {
    var r := Put16(s, p, v);
    if p == q {
      Bytes16(v % 0x1_0000);
      LowBytes(v);
    } else {
      assert r[q] == s[q] && r[q + 1] == s[q + 1];
    }
  }

  lemma LowBytes(v: u32)
    ensures v % 0x1_0000 % 0x100 == v % 0x100
    ensures v % 0x1_0000 / 0x100 == v / 0x100 % 0x100
  {
    var h, m, l := v / 0x1_0000, v / 0x100 % 0x100, v % 0x100;
    assert v == h * 0x1_0000 + m * 0x100 + l;
    assert v % 0x1_0000 == m * 0x100 + l;
  }

  method Store32(a: array<byte>, p: nat, v: u32)
    requires p + 4 <= a.Length
    modifies a
    ensures a[..] == Put32(old(a[..]), p, v)
  {
    a[p] := v % 0x100;
    a[p + 1] := v / 0x100 % 0x100;
    a[p + 2] := v / 0x1_0000 % 0x100;
    a[p + 3] := v / 0x100_0000;
  }

  method Load32(a: array<byte>, p: nat) returns (v: u32)
    requires p + 4 <= a.Length
    ensures v == Get32(a[..], p)
  {
    v := a[p + 3] as int * 0x100_0000 + a[p + 2] as int * 0x1_0000 + a[p + 1] as int * 0x100 + a[p] as int;
  }
}
