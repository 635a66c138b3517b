/** Short names: the 8.3 form of a long name, and its numbered variants. */
module ShortNames {
  import opened Words
  import opened FatStrings

  const TILDE: byte := 0x7E

  predicate Ascii(s: seq<byte>) { forall i :: 0 <= i < |s| ==> 0 < s[i] < 0x80 }

  function Upper(b: byte): byte { if 0x61 <= b <= 0x7A then b - 32 else b }

  function UpperAll(s: seq<byte>): (r: seq<byte>)
    ensures |r| == |s|
    ensures forall i :: 0 <= i < |s| ==> r[i] == Upper(s[i])
  {
    seq(|s|, i requires 0 <= i < |s| => Upper(s[i]))
  }

  /** s in upper case, without its spaces and dots. */
  function Kept(s: seq<byte>): (r: seq<byte>)
    ensures |r| <= |s|
  {
    if s == [] then [] else
      var last := s[|s| - 1];
      Kept(s[..|s| - 1]) + if last == SPACE || last == DOT then [] else [Upper(last)]
  }

  lemma KeptPrefix(s: seq<byte>, i: nat)
    requires i <= |s|
    ensures Kept(s[..i]) <= Kept(s)
    decreases |s|
  {
    if i < |s| {
      KeptPrefix(s[..|s| - 1], i);
      assert s[..|s| - 1][..i] == s[..i];
    } else {
      assert s[..i] == s;
    }
  }

  lemma KeptAscii(s: seq<byte>)
    requires Ascii(s)
    ensures Ascii(Kept(s))
  {
  }

  /** The first n bytes, filled up with spaces. */
  function Padded(s: seq<byte>, n: nat): (r: seq<byte>)
    ensures |r| == n
    ensures forall i :: 0 <= i < n ==> r[i] == if i < |s| then s[i] else SPACE
  {
    seq(n, i requires 0 <= i < n => if i < |s| then s[i] else SPACE)
  }

  ghost function Stem(name: seq<byte>): seq<byte> { if DOT in name then name[..LastDot(name)] else name }

  ghost function Extension(name: seq<byte>): seq<byte> { if DOT in name then name[LastDot(name) + 1..] else [] }

  /** Eight bytes of what stands before the last dot and three of what follows it. */
  ghost function BaseShort(name: seq<byte>): ShortName {
    Padded(Kept(Stem(name)), 8) + Padded(UpperAll(Extension(name)), 3)
  }

  lemma BaseShortAscii(name: seq<byte>)
    requires Ascii(name)
    ensures Ascii(BaseShort(name))
  {
    hide LastDot, Kept;
    KeptAscii(Stem(name));
  }

  // ----- what a short name consists of

  /** A letter a to z is raised to its capital; every other byte stays. */
  predicate Raised(b: byte, r: byte) { r == if 0x61 <= b <= 0x7A then b - 32 else b }

  /** The bytes that do not go into a short name are the space and the dot. */
  lemma KeptBytes(s: seq<byte>, b: byte)
    ensures b == 0x20 || b == 0x2E ==> Kept(s + [b]) == Kept(s)
    ensures b != 0x20 && b != 0x2E ==> exists r :: Raised(b, r) && Kept(s + [b]) == Kept(s) + [r]
  {
    assert (s + [b])[..|s|] == s;
    if b != 0x20 && b != 0x2E {
      assert Raised(b, Upper(b)) && Kept(s + [b]) == Kept(s) + [Upper(b)];
    }
  }

  lemma {:induction false} KeptWhole(s: seq<byte>)
    requires 0x20 !in s && 0x2E !in s
    ensures |Kept(s)| == |s| && forall i :: 0 <= i < |s| ==> Raised(s[i], Kept(s)[i])
  {
    if s != [] {
      KeptWhole(s[..|s| - 1]);
    }
  }

  lemma {:induction false} KeptUpper(s: seq<byte>)
    ensures forall i :: 0 <= i < |Kept(s)| ==> !(0x61 <= Kept(s)[i] <= 0x7A)
  {
    if s != [] {
      KeptUpper(s[..|s| - 1]);
    }
  }

  /** A short name has no small letters. */
  lemma ShortUpper(name: seq<byte>)
    ensures forall i :: 0 <= i < 11 ==> !(0x61 <= BaseShort(name)[i] <= 0x7A)
  {
    hide LastDot, Kept;
    KeptUpper(Stem(name));
  }

  /**
   * The first eight bytes before the last dot and the first three behind it, raised, and spaces for
   * what is missing.
   */
  lemma ShortBytes(name: seq<byte>, d: nat, i: nat)
    requires d <= |name| && i < 11
    requires d < |name| ==> name[d] == 0x2E && forall j :: d < j < |name| ==> name[j] != 0x2E
    requires forall j :: 0 <= j < d ==> name[j] != 0x20 && name[j] != 0x2E
    ensures i < 8 && i < d ==> Raised(name[i], BaseShort(name)[i])
    ensures d <= i < 8 ==> BaseShort(name)[i] == 0x20
    ensures i >= 8 && d + 1 + (i - 8) < |name| ==> Raised(name[d + 1 + (i - 8)], BaseShort(name)[i])
    ensures i >= 8 && d + 1 + (i - 8) >= |name| ==> BaseShort(name)[i] == 0x20
  {
    hide LastDot, Kept;
    if d < |name| {
      LastDotIs(name, d);
    }
    assert Stem(name) == name[..d];
    KeptWhole(name[..d]);
  }

  /** readme.txt becomes README and TXT. */
  lemma ShortReadme()
    ensures BaseShort([0x72, 0x65, 0x61, 0x64, 0x6D, 0x65, 0x2E, 0x74, 0x78, 0x74]) ==
            [0x52, 0x45, 0x41, 0x44, 0x4D, 0x45, 0x20, 0x20, 0x54, 0x58, 0x54]
  {
    hide BaseShort, Stem, Extension, Padded, Kept, UpperAll, LastDot, Upper;
    var name: seq<byte> := [0x72, 0x65, 0x61, 0x64, 0x6D, 0x65, 0x2E, 0x74, 0x78, 0x74];
    var short: seq<byte> := [0x52, 0x45, 0x41, 0x44, 0x4D, 0x45, 0x20, 0x20, 0x54, 0x58, 0x54];
    forall i | 0 <= i < 11 ensures BaseShort(name)[i] == short[i] {
      ReadmeDot();
      ShortBytes(name, 6, i);
    }
  }

  lemma ReadmeDot()
    ensures var name: seq<byte> := [0x72, 0x65, 0x61, 0x64, 0x6D, 0x65, 0x2E, 0x74, 0x78, 0x74];
      && name[6] == 0x2E && (forall j :: 6 < j < |name| ==> name[j] != 0x2E)
      && (forall j :: 0 <= j < 6 ==> name[j] != 0x20 && name[j] != 0x2E)
  {
  }

  /** fatfs_lfn_create_sfn; a name that starts with a dot is refused. */
  method CreateShort(name: seq<byte>) returns (ok: bool, short: ShortName)
    requires CString(name)
    ensures ok <==> name == [] || name[0] != DOT
    ensures ok ==> short == BaseShort(name)
    ensures forall i :: 0 <= i < 11 ==> !(0x61 <= short[i] <= 0x7A)
  {
    hide LastDot, Kept, Padded, UpperAll;
    ShortUpper(name);
    short := seq(11, _ => SPACE);
    if name != [] && name[0] == DOT {
      return false, short;
    }
    var dotPos := GetExtension(name);
    var ext := ExtensionPart(name, dotPos);
    var len := if dotPos != -1 then dotPos else |name|;
    assert Stem(name) == name[..len];
    var stem := StemPart(name, len);
    var upper := UpperPart(ext, Extension(name));
    ok, short := true, stem + upper;
  }

  /** The copy of the first three bytes behind the last dot. */
  method ExtensionPart(name: seq<byte>, dotPos: int) returns (ext: seq<byte>)
    requires -1 <= dotPos < |name|
    ensures ext == Padded(if dotPos == -1 then [] else name[dotPos + 1..], 3)
  {
    ext := seq(3, _ => SPACE);
    if dotPos != -1 {
      for i := dotPos + 1 to dotPos + 4
        invariant |ext| == 3
        invariant forall j :: 0 <= j < 3 ==>
                ext[j] == if j < i - dotPos - 1 && dotPos + 1 + j < |name| then name[dotPos + 1 + j] else SPACE
      {
        if i < |name| {
          ext := ext[i - (dotPos + 1) := name[i]];
        }
      }
    }
  }

  /** The loop that adds the extension part. */
  method UpperPart(ext: seq<byte>, ghost full: seq<byte>) returns (upper: seq<byte>)
    requires ext == Padded(full, 3)
    ensures upper == Padded(UpperAll(full), 3)
  {
    upper := [];
    for i := 0 to 3
      invariant |upper| == i && forall j :: 0 <= j < i ==> upper[j] == Upper(ext[j])
    {
      upper := upper + [Upper(ext[i])];
    }
  }

  /** The loop that copies the part before the last dot. */
  method StemPart(name: seq<byte>, len: nat) returns (part: seq<byte>)
    requires len <= |name|
    ensures part == Padded(Kept(name[..len]), 8)
  {
    hide Kept;
    part := seq(8, _ => SPACE);
    var pos, i := 0, 0;
    KeptNothing();
    assert name[..0] == [];
    while i < len
      invariant i <= len && |part| == 8 && pos < 8
      invariant |Kept(name[..i])| == pos && part == Padded(Kept(name[..i]), 8)
    {
      KeptNext(name, i);
      if name[i] != SPACE && name[i] != DOT {
        part := part[pos := Upper(name[i])];
        pos := pos + 1;
      }
      i := i + 1;
      if pos == 8 {
        break;
      }
    }
    KeptPrefix(name[..len], i);
    assert name[..len][..i] == name[..i];
  }

  lemma KeptNothing()
    ensures Kept([]) == []
  {
  }

  lemma KeptNext(name: seq<byte>, i: nat)
    requires i < |name|
    ensures Kept(name[..i + 1]) == Kept(name[..i]) + if name[i] == SPACE || name[i] == DOT then [] else [Upper(name[i])]
  {
    assert name[..i + 1][..i] == name[..i];
  }

  // ----- tails

  /** Decimal digits, most significant first. */
  function Digits(n: nat): (r: seq<byte>)
    ensures |r| >= 1 && forall i :: 0 <= i < |r| ==> 0x30 <= r[i] <= 0x39
  {
    (if n < 10 then [] else Digits(n / 10)) + [0x30 + n % 10]
  }

  lemma DigitsInjective(m: nat, n: nat)
    requires Digits(m) == Digits(n)
    ensures m == n
  {
    var s, t := Digits(m), Digits(n);
    assert s[|s| - 1] == 0x30 + m % 10 && t[|t| - 1] == 0x30 + n % 10;
    assert s[..|s| - 1] == (if m < 10 then [] else Digits(m / 10));
    assert t[..|t| - 1] == (if n < 10 then [] else Digits(n / 10));
    if m >= 10 && n >= 10 {
      DigitsInjective(m / 10, n / 10);
    }
  }

  lemma DigitsLength(n: nat)
    requires n <= 99999
    ensures |Digits(n)| <= 5
  {
    assert n >= 10 ==> |Digits(n)| == |Digits(n / 10)| + 1;
    if n >= 10 {
      ShortDigits(n / 10, 4);
    }
  }

  lemma ShortDigits(n: nat, k: nat)
    requires 1 <= k <= 4 && n < (if k == 1 then 10 else if k == 2 then 100 else if k == 3 then 1000 else 10000)
    ensures |Digits(n)| <= k
  {
    if n >= 10 {
      ShortDigits(n / 10, k - 1);
    }
  }

  /** What decimal digits stand for. */
  function Value(s: seq<byte>): int { if s == [] then 0 else 10 * Value(s[..|s| - 1]) + s[|s| - 1] - 0x30 }

  lemma {:induction false} DigitsValue(n: nat)
    ensures Value(Digits(n)) == n
    ensures n >= 10 ==> Digits(n)[0] != 0x30
  {
    var s := Digits(n);
    assert s[..|s| - 1] == (if n < 10 then [] else Digits(n / 10));
    if n >= 10 {
      DigitsValue(n / 10);
    }
  }

  /** fatfs_itoa: the digits are collected backwards and copied forwards. */
  method Itoa(num: nat) returns (s: seq<byte>)
    ensures s == Digits(num)
  {
    var outbuf := DigitsBackwards(num);
    s := [];
    assert outbuf[..|outbuf|] == outbuf;
    hide Digits;
    var cp := |outbuf| - 1;
    while cp >= 0
      invariant -1 <= cp < |outbuf| && s + Reversed(outbuf[..cp + 1]) == Reversed(outbuf)
    {
      assert outbuf[..cp + 1][..cp] == outbuf[..cp];
      s := s + [outbuf[cp]];
      cp := cp - 1;
    }
  }

  method DigitsBackwards(num: nat) returns (outbuf: seq<byte>)
    ensures Reversed(outbuf) == Digits(num)
  {
    hide Digits, Reversed, Higher;
    outbuf := [0x30 + num % 10];
    var n: nat := num / 10;
    DigitsSplit(num);
    ReversedOne(0x30 + num % 10);
    ghost var left: nat := num;
    while n > 0
      invariant Digits(num) == Higher(left) + Reversed(outbuf) && n == left / 10
      decreases n
    {
      DigitsStep(num, left, outbuf);
      left := n;
      outbuf := outbuf + [0x30 + n % 10];
      n := n / 10;
    }
    NoHigher(left);
  }

  /** The digits of n but for the last. */
  function Higher(n: nat): seq<byte> { if n < 10 then [] else Digits(n / 10) }

  lemma NoHigher(n: nat)
    requires n / 10 == 0
    ensures Higher(n) == []
    ensures forall s: seq<byte> :: [] + s == s
  {
  }

  lemma DigitsSplit(n: nat)
    ensures Digits(n) == Higher(n) + [0x30 + n % 10]
  {
  }

  lemma DigitsStep(num: nat, n: nat, outbuf: seq<byte>)
    requires n >= 10 && Digits(num) == Higher(n) + Reversed(outbuf)
    ensures Digits(num) == Higher(n / 10) + Reversed(outbuf + [0x30 + n / 10 % 10])
  {
    hide Digits, Reversed;
    var m: nat := n / 10;
    assert Higher(n) == Digits(m);
    hide Higher;
    var d := [0x30 + m % 10];
    DigitsSplit(m);
    ReversedMore(outbuf, 0x30 + m % 10);
    assert Higher(m) + d + Reversed(outbuf) == Higher(m) + (d + Reversed(outbuf));
  }

  function Reversed(s: seq<byte>): seq<byte> {
    if s == [] then [] else [s[|s| - 1]] + Reversed(s[..|s| - 1])
  }

  lemma ReversedOne(b: byte)
    ensures Reversed([b]) == [b]
  {
    assert [b][..0] == [];
  }

  lemma ReversedMore(s: seq<byte>, b: byte)
    ensures Reversed(s + [b]) == [b] + Reversed(s)
  {
    assert (s + [b])[..|s|] == s;
  }

  function Tail(n: nat): seq<byte> { [TILDE] + Digits(n) }

  /** base with ~n over the end of its first eight bytes. */
  function WithTail(base: ShortName, n: nat): (r: ShortName)
    requires n <= 99999
  {
    DigitsLength(n);
    var t := Tail(n);
    base[..8 - |t|] + t + base[8..]
  }

  /** A tilde and the number end the first eight bytes; the bytes before them and the extension stay. */
  lemma TailBytes(base: ShortName, n: nat, i: nat)
    requires n <= 99999 && i < 11
    ensures var d := |Digits(n)|;
      && d <= 5
      && WithTail(base, n)[i] ==
           if i < 7 - d || i >= 8 then base[i] else if i == 7 - d then 0x7E else Digits(n)[i - 8 + d]
  {
    DigitsLength(n);
    hide Digits;
  }

  /** fatfs_lfn_generate_tail. */
  method GenerateTail(base: ShortName, tailNum: nat) returns (ok: bool, short: ShortName)
    ensures ok <==> tailNum <= 99999
    ensures ok ==> short == WithTail(base, tailNum)
  {
    if tailNum > 99999 {
      return false, base;
    }
    DigitsLength(tailNum);
    hide Digits;
    var digits := Itoa(tailNum);
    var tail := [TILDE] + digits;
    short := base[..8 - |tail|] + tail + base[8..];
    ok := true;
  }

  /** Different numbers give different names. */
  lemma TailsDiffer(base: ShortName, m: nat, n: nat)
    requires m <= 99999 && n <= 99999 && WithTail(base, m) == WithTail(base, n)
    ensures m == n
  {
    DigitsLength(m);
    DigitsLength(n);
    hide Digits;
    if |Digits(m)| < |Digits(n)| {
      LongerTail(base, m, n);
    } else if |Digits(n)| < |Digits(m)| {
      LongerTail(base, n, m);
    } else {
      var k := 8 - |Tail(m)|;
      assert WithTail(base, m)[k..8] == Tail(m) && WithTail(base, n)[k..8] == Tail(n);
      assert Tail(m)[1..] == Digits(m) && Tail(n)[1..] == Digits(n);
      DigitsInjective(m, n);
    }
  }

  /** Where the shorter tail has its tilde the longer one has a digit. */
  lemma LongerTail(base: ShortName, m: nat, n: nat)
    requires m <= 99999 && n <= 99999 && |Digits(m)| < |Digits(n)|
    ensures WithTail(base, m) != WithTail(base, n)
  {
    DigitsLength(m);
    DigitsLength(n);
    hide Digits;
    var k := 8 - |Tail(m)|;
    assert WithTail(base, m)[k] == TILDE;
    assert WithTail(base, n)[k] == Tail(n)[|Tail(n)| - |Tail(m)|];
  }

  // ----- the candidates, in the order in which they are tried

  function Candidate(base: ShortName, n: nat): ShortName
    requires n <= 99999
  {
    if n == 0 then base else WithTail(base, n)
  }

  /** The first candidate is the base name itself; from then on the tails count up from ~1. */
  lemma CandidateIs(base: ShortName, n: nat)
    requires 1 <= n <= 9
    ensures Candidate(base, 0) == base
    ensures Candidate(base, n) == base[..6] + [0x7E, 0x30 + n] + base[8..]
  {
    assert Digits(n) == [0x30 + n];
    assert [TILDE] + [0x30 + n] == [0x7E, 0x30 + n];
  }

  lemma CandidateAscii(base: ShortName, n: nat)
    requires Ascii(base) && n <= 99999
    ensures Ascii(Candidate(base, n)) && Candidate(base, n)[0] == base[0]
  {
    DigitsLength(n);
    hide Digits;
  }

  /** Ascii names are compared byte by byte. */
  lemma AsciiSame(a: ShortName, b: seq<byte>)
    requires Ascii(a) && |b| >= 11 && SameShortName(b, a)
    ensures b[..11] == a
  {
    WholeBeforeNul(a);
    assert a[..11] == a;
    NulFree(b[..11], a);
  }

  lemma WholeBeforeNul(a: seq<byte>)
    requires CString(a)
    ensures UpToNul(a) == a
  {
  }

  lemma NulFree(b: seq<byte>, a: seq<byte>)
    requires UpToNul(b) == a && |a| == |b|
    ensures b == a
  {
    if b != [] {
      assert a == [b[0]] + UpToNul(b[1..]);
      NulFree(b[1..], a[1..]);
    }
  }
}
