/** Name comparison.  A C string is written as its bytes, without the terminating zero. */
module FatStrings {
  import opened Words

  const DOT: byte := 0x2E
  const SPACE: byte := 0x20

  /** The name field of a short entry: eight bytes and three of extension. */
  type ShortName = s: seq<byte> | |s| == 11 witness seq(11, _ => SPACE)

  predicate CString(s: seq<byte>) { forall i :: 0 <= i < |s| ==> s[i] != 0 }

  /** The bytes up to the first zero. */
  function UpToNul(s: seq<byte>): (r: seq<byte>)
    ensures CString(r) && |r| <= |s|
  {
    if s == [] || s[0] == 0 then [] else [s[0]] + UpToNul(s[1..])
  }

  lemma {:induction false} UpToNulCut(s: seq<byte>, t: seq<byte>)
    requires CString(s) && (t == [] || t[0] == 0)
    ensures UpToNul(s + t) == s
  {
    if s == [] {
      assert s + t == t;
    } else {
      UpToNulCut(s[1..], t);
      assert s + t == [s[0]] + (s[1..] + t);
    }
  }

  /** Only what stands before a zero counts. */
  lemma {:induction false} UpToNulPrefix(s: seq<byte>, t: seq<byte>)
    requires t == [] || t[0] == 0
    ensures UpToNul(s + t) == UpToNul(s)
  {
    if s == [] {
      assert s + t == t;
    } else if s[0] == 0 {
      assert (s + t)[0] == 0;
    } else {
      UpToNulPrefix(s[1..], t);
      assert (s + t)[1..] == s[1..] + t;
    }
  }

  /** Byte by byte the same, or the same letter in another case. */
  predicate SameButCase(a: seq<byte>, b: seq<byte>) {
    |a| == |b| && forall i :: 0 <= i < |a| ==> SameLetter(a[i], b[i])
  }

  predicate SameLetter(a: byte, b: byte) {
    a == b || (0x41 <= a <= 0x5A && b == a + 32) || (0x41 <= b <= 0x5A && a == b + 32)
  }

  function Lower(b: byte): byte { if 0x41 <= b <= 0x5A then b + 32 else b }

  function LowerAll(s: seq<byte>): (r: seq<byte>)
    ensures |r| == |s|
    ensures forall i :: 0 <= i < |s| ==> r[i] == Lower(s[i])
  {
    seq(|s|, i requires 0 <= i < |s| => Lower(s[i]))
  }

  /** The lower case of two strings is the same exactly if they differ in case only. */
  lemma LowerAllSame(a: seq<byte>, b: seq<byte>)
    ensures LowerAll(a) == LowerAll(b) <==> SameButCase(a, b)
  {
    if LowerAll(a) == LowerAll(b) {
      forall i | 0 <= i < |a| ensures SameLetter(a[i], b[i]) {
        assert LowerAll(a)[i] == LowerAll(b)[i];
      }
    }
  }

  /** s without its trailing spaces. */
  function Trimmed(s: seq<byte>): (r: seq<byte>) {
    if s == [] || s[|s| - 1] != SPACE then s else Trimmed(s[..|s| - 1])
  }

  /** What two names have in common when the driver takes them for the same. */
  datatype NormalName = Plain(base: seq<byte>) | Dotted(base: seq<byte>, extension: seq<byte>)

  /** Case is ignored, and so are spaces at the end of the part before the last dot. */
  ghost function Normal(s: seq<byte>): NormalName {
    if DOT !in s then Plain(LowerAll(Trimmed(s)))
    else
      var dot := LastDot(s);
      Dotted(LowerAll(Trimmed(s[..dot])), LowerAll(s[dot + 1..]))
  }

  ghost function LastDot(s: seq<byte>): (d: nat)
    requires DOT in s
    ensures d < |s| && s[d] == DOT && DOT !in s[d + 1..]
  {
    if s[|s| - 1] == DOT then |s| - 1
    else
      assert s == s[..|s| - 1] + [s[|s| - 1]];
      LastDot(s[..|s| - 1])
  }

  /** FileString_StrCmpNoCase. */
  method CompareNoCase(s1: seq<byte>, s2: seq<byte>, n: nat) returns (diff: int)
    requires CString(s1) && CString(s2) && n <= |s1| && n <= |s2|
    ensures diff == 0 <==> LowerAll(s1[..n]) == LowerAll(s2[..n])
    ensures diff == 0 <==> SameButCase(s1[..n], s2[..n])
  {
    LowerAllSame(s1[..n], s2[..n]);
    hide SameButCase;
    var i := 0;
    while i < n
      invariant i <= n
      invariant forall j :: 0 <= j < i ==> Lower(s1[j]) == Lower(s2[j])
    {
      var a: int, b: int := s1[i], s2[i];
      if 0x41 <= a <= 0x5A {
        a := a + 32;
      }
      if 0x41 <= b <= 0x5A {
        b := b + 32;
      }
      diff := a - b;
      if diff != 0 {
        assert LowerAll(s1[..n])[i] != LowerAll(s2[..n])[i];
        return;
      }
      if s1[i] == 0 || s2[i] == 0 {
        break;
      }
      i := i + 1;
    }
    diff := 0;
    assert LowerAll(s1[..n]) == LowerAll(s2[..n]);
  }

  /** FileString_GetExtension: the position of the last dot, or -1. */
  method GetExtension(s: seq<byte>) returns (dot: int)
    ensures dot == if DOT in s then LastDot(s) else -1
  {
    dot := -1;
    for i := 0 to |s|
      invariant dot == if DOT in s[..i] then LastDot(s[..i]) else -1
    {
      assert s[..i + 1][..i] == s[..i];
      assert s[..i + 1] == s[..i] + [s[i]];
      if s[i] == DOT {
        dot := i;
      }
    }
    assert s[..|s|] == s;
  }

  /** FileString_TrimLength: the length of the first length bytes without trailing spaces. */
  method TrimLength(s: seq<byte>, length: nat) returns (trimmed: nat)
    requires length <= |s|
    ensures trimmed <= length && s[..trimmed] == Trimmed(s[..length])
  {
    trimmed := length;
    var left := length;
    while left != 0
      invariant left <= length && trimmed == left && Trimmed(s[..left]) == Trimmed(s[..length])
    {
      if s[left - 1] != SPACE {
        break;
      }
      trimmed := left - 1;
      assert s[..left][..left - 1] == s[..left - 1];
      left := left - 1;
    }
  }

  /** fatfs_compare_names: equality of normal forms. */
  method CompareNames(a: seq<byte>, b: seq<byte>) returns (same: bool)
    requires CString(a) && CString(b)
    ensures same <==> Normal(a) == Normal(b)
    ensures SameButCase(a, b) ==> same
  {
    hide LastDot, Trimmed, LowerAll, SameButCase;
    if SameButCase(a, b) {
      CaseIgnored(a, b);
    }
    var dotA := GetExtension(a);
    var dotB := GetExtension(b);
    if (dotA == -1) != (dotB == -1) {
      return false;
    }
    var lenA, lenB;
    if dotA != -1 {
      var extA, extB := a[dotA + 1..], b[dotB + 1..];
      if |extA| != |extB| {
        return false;
      }
      var diff := CompareNoCase(extA, extB, |extA|);
      assert extA[..|extA|] == extA && extB[..|extA|] == extB;
      if diff != 0 {
        return false;
      }
      lenA, lenB := dotA, dotB;
    } else {
      lenA, lenB := |a|, |b|;
      assert a[..lenA] == a && b[..lenB] == b;
    }
    ghost var fullA, fullB := lenA, lenB;
    lenA := TrimLength(a, lenA);
    lenB := TrimLength(b, lenB);
    if lenA != lenB {
      assert |Trimmed(a[..fullA])| != |Trimmed(b[..fullB])|;
      return false;
    }
    var diff := CompareNoCase(a, b, lenA);
    same := diff == 0;
  }

  /** The trailing spaces are gone, and nothing else. */
  lemma {:induction false} TrimmedIs(s: seq<byte>)
    ensures |Trimmed(s)| <= |s| && Trimmed(s) == s[..|Trimmed(s)|]
    ensures forall i :: |Trimmed(s)| <= i < |s| ==> s[i] == 0x20
    ensures Trimmed(s) != [] ==> Trimmed(s)[|Trimmed(s)| - 1] != 0x20
  {
    if s != [] && s[|s| - 1] == SPACE {
      TrimmedIs(s[..|s| - 1]);
    }
  }

  /** Trailing spaces do not depend on case. */
  lemma {:induction false} TrimmedCase(a: seq<byte>, b: seq<byte>)
    requires SameButCase(a, b)
    ensures SameButCase(Trimmed(a), Trimmed(b))
  {
    if a != [] {
      assert SameLetter(a[|a| - 1], b[|b| - 1]);
      TrimmedCase(a[..|a| - 1], b[..|b| - 1]);
    }
  }

  lemma LastDotIs(s: seq<byte>, d: nat)
    requires d < |s| && s[d] == 0x2E && forall i :: d < i < |s| ==> s[i] != 0x2E
    ensures DOT in s && LastDot(s) == d
  {
    forall i | LastDot(s) < i < |s| ensures s[i] != 0x2E {
      assert s[i] == s[LastDot(s) + 1..][i - LastDot(s) - 1];
    }
  }

  /**
   * When two names are the same to the driver: what follows the last dot is the same but for case, and
   * so is what precedes it or, without a dot, the whole name, each without trailing spaces.
   */
  lemma NormalExactly(a: seq<byte>, b: seq<byte>)
    ensures Normal(a) == Normal(b) <==>
            if DOT in a then
              && DOT in b
              && SameButCase(a[LastDot(a) + 1..], b[LastDot(b) + 1..])
              && SameButCase(Trimmed(a[..LastDot(a)]), Trimmed(b[..LastDot(b)]))
            else DOT !in b && SameButCase(Trimmed(a), Trimmed(b))
  {
    hide LowerAll, SameButCase, Trimmed, LastDot;
    if DOT in a && DOT in b {
      LowerAllSame(a[LastDot(a) + 1..], b[LastDot(b) + 1..]);
      LowerAllSame(Trimmed(a[..LastDot(a)]), Trimmed(b[..LastDot(b)]));
    } else {
      LowerAllSame(Trimmed(a), Trimmed(b));
    }
  }

  /** Case is ignored: names that differ in nothing else are the same to the driver. */
  lemma CaseIgnored(a: seq<byte>, b: seq<byte>)
    requires SameButCase(a, b)
    ensures Normal(a) == Normal(b)
  {
    hide Normal, Trimmed, LastDot, LowerAll;
    NormalExactly(a, b);
    SameDot(a, b);
    if DOT in a {
      TrimmedCase(a[..LastDot(a)], b[..LastDot(b)]);
    } else {
      TrimmedCase(a, b);
    }
  }

  lemma SameDot(a: seq<byte>, b: seq<byte>)
    requires SameButCase(a, b)
    ensures DOT in a <==> DOT in b
    ensures DOT in a ==> LastDot(b) == LastDot(a)
  {
    assert forall i :: 0 <= i < |a| ==> SameLetter(a[i], b[i]);
    if DOT in a {
      var d := LastDot(a);
      forall i | d < i < |b| ensures b[i] != 0x2E {
        assert SameLetter(a[i], b[i]) && a[i] == a[d + 1..][i - d - 1];
      }
      assert SameLetter(a[d], b[d]);
      LastDotIs(b, d);
    }
  }

  /** And nothing else is ignored in a name without a dot and without a space at its end. */
  lemma OnlyCaseIgnored(a: seq<byte>, b: seq<byte>)
    requires 0x2E !in a && 0x2E !in b && (a != [] ==> a[|a| - 1] != 0x20) && (b != [] ==> b[|b| - 1] != 0x20)
    ensures Normal(a) == Normal(b) <==> SameButCase(a, b)
  {
    hide SameButCase, LastDot;
    NormalExactly(a, b);
    assert Trimmed(a) == a && Trimmed(b) == b;
  }

  /** strncmp(a, b, 11) == 0 on the name fields of two short entries. */
  predicate SameShortName(a: seq<byte>, b: seq<byte>)
    requires |a| >= 11 && |b| >= 11
  {
    UpToNul(a[..11]) == UpToNul(b[..11])
  }

  /** Without zero bytes these are all eleven bytes. */
  lemma SameShortNameIs(a: seq<byte>, b: seq<byte>)
    requires |a| >= 11 && |b| >= 11 && CString(a[..11]) && CString(b[..11])
    ensures SameShortName(a, b) <==> forall i :: 0 <= i < 11 ==> a[i] == b[i]
  {
    hide UpToNul;
    UpToNulCut(a[..11], []);
    UpToNulCut(b[..11], []);
    assert a[..11] + [] == a[..11] && b[..11] + [] == b[..11];
    if forall i :: 0 <= i < 11 ==> a[i] == b[i] {
      assert a[..11] == b[..11];
    } else {
      var i :| 0 <= i < 11 && a[i] != b[i];
      assert a[..11][i] != b[..11][i];
    }
  }
}
