/**
 * A directory as a row of slots, and as the list of (name, record) pairs that the row
 * stands for.  A name is read off the long-name slots right before its record.
 */
module Directories {
  import opened Words
  import opened FatStrings
  import opened LongNames

  /** The slots of a sector, and of a row of sectors. */
  function SlotOf(sector: Sector, i: nat): Slot
    requires i < 16
  {
    sector[i * 32..i * 32 + 32]
  }

  function Slots(secs: seq<Sector>): (r: seq<Slot>)
    ensures |r| == 16 * |secs|
    ensures forall k :: 0 <= k < |r| ==> r[k] == SlotOf(secs[k / 16], k % 16)
  {
    seq(16 * |secs|, k requires 0 <= k < 16 * |secs| => SlotOf(secs[k / 16], k % 16))
  }

  /** The sector with its i-th slot replaced. */
  function WithSlot(sector: Sector, i: nat, s: Slot): Sector
    requires i < 16
  {
    sector[..i * 32] + s + sector[i * 32 + 32..]
  }

  lemma WithSlotRead(sector: Sector, i: nat, s: Slot, j: nat)
    requires i < 16 && j < 16
    ensures SlotOf(WithSlot(sector, i, s), j) == if j == i then s else SlotOf(sector, j)
  {
    var r := WithSlot(sector, i, s);
    if j < i {
      assert r[j * 32..j * 32 + 32] == sector[j * 32..j * 32 + 32];
    } else if j > i {
      assert r[j * 32..j * 32 + 32] == sector[j * 32..j * 32 + 32];
    }
  }

  lemma SlotsWritten(secs: seq<Sector>, k: nat, s: Slot)
    requires k < 16 * |secs|
    ensures Slots(secs[k / 16 := WithSlot(secs[k / 16], k % 16, s)]) == Slots(secs)[k := s]
  {
    var secs' := secs[k / 16 := WithSlot(secs[k / 16], k % 16, s)];
    hide SlotOf, WithSlot;
    forall j | 0 <= j < 16 * |secs| ensures Slots(secs')[j] == Slots(secs)[k := s][j] {
      WithSlotRead(secs[k / 16], k % 16, s, j % 16);
    }
  }

  /** Number of long-name slots right before slot k. */
  function RunLength(slots: seq<Slot>, k: nat): (n: nat)
    requires k <= |slots|
    ensures n <= k
  {
    if k == 0 || !IsLongText(slots[k - 1]) then 0 else 1 + RunLength(slots, k - 1)
  }

  /** Their name bytes, nearest slot first. */
  function RunText(slots: seq<Slot>, k: nat): (t: seq<byte>)
    requires k <= |slots|
    ensures |t| == RunLength(slots, k) * CHARS
  {
    if k == 0 || !IsLongText(slots[k - 1]) then [] else Text(slots[k - 1]) + RunText(slots, k - 1)
  }

  /** Going left from slot k, the long-name slots are numbered i, i+1, ... and stop at 20. */
  predicate Numbered(slots: seq<Slot>, k: nat, i: nat)
    requires k <= |slots|
  {
    k == 0 || !IsLongText(slots[k - 1])
    || (1 <= i <= MAX_ENTRIES && Ordinal(slots[k - 1]) == i && Numbered(slots, k - 1, i + 1))
  }

  /** The 8.3 name as fatfs_get_file_entry spells it. */
  function ShortDisplay(s: Slot): seq<byte> {
    var dotted := (s[8] != SPACE || s[9] != SPACE || s[10] != SPACE) && s[0] != DOT;
    UpToNul(s[..8] + [if dotted then DOT else SPACE] + s[8..11])
  }

  /** Slot i of a sector is its 32 bytes from 32 * i on. */
  lemma SlotBytes(sector: Sector, i: nat, s: Slot, p: nat)
    requires i < 16 && p < 512
    ensures p / 32 == i ==> SlotOf(sector, i)[p % 32] == sector[p]
    ensures WithSlot(sector, i, s)[p] == if p / 32 == i then s[p % 32] else sector[p]
  {
  }

  /**
   * The spelling of a short name without zero bytes: eight bytes of name, a dot if there is any extension
   * or else a space, and three bytes of extension.  A name that begins with a dot gets no other.
   */
  lemma ShortSpelled(s: Slot)
    requires forall i :: 0 <= i < 11 ==> s[i] != 0
    ensures var d := ShortDisplay(s);
      && |d| == 12 && (forall i :: 0 <= i < 8 ==> d[i] == s[i]) && (forall i :: 9 <= i < 12 ==> d[i] == s[i - 1])
      && d[8] == if s[0] != 0x2E && !(s[8] == 0x20 && s[9] == 0x20 && s[10] == 0x20) then 0x2E else 0x20
  {
    var dotted := (s[8] != SPACE || s[9] != SPACE || s[10] != SPACE) && s[0] != DOT;
    var d := s[..8] + [if dotted then DOT else SPACE] + s[8..11];
    hide UpToNul;
    UpToNulCut(d, []);
    assert d + [] == d;
  }

  /** A record holds the 8.3 name made of this stem and extension, filled up with spaces. */
  predicate HoldsShort(s: Slot, stem: seq<byte>, extension: seq<byte>) {
    && 1 <= |stem| <= 8 && |extension| <= 3
    && (forall i :: 0 <= i < 8 ==> s[i] == if i < |stem| then stem[i] else 0x20)
    && (forall i :: 8 <= i < 11 ==> s[i] == if i - 8 < |extension| then extension[i - 8] else 0x20)
  }

  /** No zero byte, dot or space. */
  predicate NamePart(s: seq<byte>) { forall i :: 0 <= i < |s| ==> s[i] != 0 && s[i] != 0x2E && s[i] != 0x20 }

  /** The name as it is written: the stem and, if there is one, a dot and the extension. */
  function Written(stem: seq<byte>, extension: seq<byte>): seq<byte> {
    if extension == [] then stem else stem + [0x2E] + extension
  }

  /**
   * A record without a long name is found under its 8.3 name exactly if the extension is empty or has
   * all three bytes: the spaces behind a shorter one are compared, and the name to find has none.
   */
  lemma ShortFoundExactly(s: Slot, stem: seq<byte>, extension: seq<byte>)
    requires NamePart(stem) && NamePart(extension) && HoldsShort(s, stem, extension)
    ensures Normal(ShortDisplay(s)) == Normal(Written(stem, extension)) <==> |extension| == 0 || |extension| == 3
  {
    hide ShortDisplay, Normal;
    ShortSpelled(s);
    if extension == [] {
      PlainFound(ShortDisplay(s), stem);
    } else {
      DottedFound(ShortDisplay(s), stem, extension);
    }
  }

  lemma PlainFound(d: seq<byte>, stem: seq<byte>)
    requires NamePart(stem) && 1 <= |stem| <= 8 && |d| == 12
    requires forall i :: 0 <= i < 12 ==> d[i] == if i < |stem| then stem[i] else 0x20
    ensures Normal(d) == Normal(stem)
  {
    hide Normal, Trimmed, LastDot;
    TrimmedPadded(stem, d);
    TrimmedPadded(stem, stem);
    NormalExactly(d, stem);
  }

  lemma DottedFound(d: seq<byte>, stem: seq<byte>, extension: seq<byte>)
    requires NamePart(stem) && NamePart(extension) && 1 <= |stem| <= 8 && 1 <= |extension| <= 3 && |d| == 12
    requires forall i :: 0 <= i < 8 ==> d[i] == if i < |stem| then stem[i] else 0x20
    requires d[8] == 0x2E && forall i :: 9 <= i < 12 ==> d[i] == if i - 9 < |extension| then extension[i - 9] else 0x20
    ensures Normal(d) == Normal(stem + [0x2E] + extension) <==> |extension| == 3
  {
    hide Normal, Trimmed, LastDot;
    var name := stem + [0x2E] + extension;
    TrimmedPadded(stem, d[..8]);
    TrimmedPadded(stem, stem);
    LastDotIs(d, 8);
    LastDotIs(name, |stem|);
    assert name[..|stem|] == stem && name[|stem| + 1..] == extension && |d[9..]| == 3;
    NormalExactly(d, name);
    if |extension| == 3 {
      assert d[9..] == extension;
    }
  }

  /** Without its trailing spaces a padded stem is the stem. */
  lemma {:induction false} TrimmedPadded(stem: seq<byte>, s: seq<byte>)
    requires stem != [] && stem[|stem| - 1] != 0x20 && |stem| <= |s|
    requires forall i :: 0 <= i < |s| ==> s[i] == if i < |stem| then stem[i] else 0x20
    ensures Trimmed(s) == stem
  {
    if |s| > |stem| {
      TrimmedPadded(stem, s[..|s| - 1]);
    } else {
      assert s == stem;
    }
  }

  function NameAt(slots: seq<Slot>, k: nat): (name: seq<byte>)
    requires k < |slots|
    ensures CString(name)
  {
    if RunLength(slots, k) == 0 then ShortDisplay(slots[k]) else UpToNul(RunText(slots, k))
  }

  /** The long-name slots before every live slot are numbered as they should be. */
  ghost predicate WellFormed(slots: seq<Slot>) {
    forall k :: 0 <= k < |slots| && IsLive(slots[k]) ==> Numbered(slots, k, 1)
  }

  datatype Pair = Pair(name: seq<byte>, record: Slot)

  /** The pairs among the first k slots. */
  function Pairs(slots: seq<Slot>, k: nat): seq<Pair>
    requires k <= |slots|
  {
    if k == 0 then []
    else if IsLive(slots[k - 1]) then Pairs(slots, k - 1) + [Pair(NameAt(slots, k - 1), slots[k - 1])]
    else Pairs(slots, k - 1)
  }

  function Listing(slots: seq<Slot>): seq<Pair> { Pairs(slots, |slots|) }

  // ----- locality

  /** What stands before slot k does not depend on anything left of a slot that is no long-name slot. */
  lemma RunSame(a: seq<Slot>, b: seq<Slot>, k: nat, low: nat, i: nat)
    requires low <= k <= |a| && k <= |b|
    requires forall j :: low <= j < k ==> a[j] == b[j]
    requires low == 0 || (!IsLongText(a[low - 1]) && !IsLongText(b[low - 1]))
    ensures RunLength(a, k) == RunLength(b, k)
    ensures RunText(a, k) == RunText(b, k)
    ensures Numbered(a, k, i) == Numbered(b, k, i)
  {
    hide IsLongText, IsInvalid, Text, Ordinal;
    if k > low {
      RunSame(a, b, k - 1, low, i + 1);
    }
  }

  lemma SameName(a: seq<Slot>, b: seq<Slot>, k: nat, low: nat)
    requires low <= k < |a| && k < |b|
    requires forall j :: low <= j <= k ==> a[j] == b[j]
    requires low == 0 || (!IsLongText(a[low - 1]) && !IsLongText(b[low - 1]))
    ensures NameAt(a, k) == NameAt(b, k)
  {
    hide IsLongText, IsInvalid, Text, Ordinal;
    RunSame(a, b, k, low, 1);
  }

  lemma PairsSame(a: seq<Slot>, b: seq<Slot>, k: nat)
    requires k <= |a| && k <= |b| && forall j :: 0 <= j < k ==> a[j] == b[j]
    ensures Pairs(a, k) == Pairs(b, k)
  {
    hide IsLongText, IsInvalid, Text, Ordinal;
    if k > 0 {
      PairsSame(a, b, k - 1);
      RunSame(a, b, k - 1, 0, 1);
    }
  }

  /** Two rows that agree right of low list, there, the same pairs. */
  lemma PairsAfter(a: seq<Slot>, b: seq<Slot>, low: nat, k: nat)
    requires low <= k <= |a| == |b|
    requires forall j :: low <= j < k ==> a[j] == b[j]
    requires low == 0 || (!IsLongText(a[low - 1]) && !IsLongText(b[low - 1]))
    ensures Pairs(a, low) <= Pairs(a, k) && Pairs(b, low) <= Pairs(b, k)
    ensures Pairs(a, k)[|Pairs(a, low)|..] == Pairs(b, k)[|Pairs(b, low)|..]
  {
    hide IsLive, IsLongText, IsInvalid, Text, Ordinal, NameAt, RunText, RunLength, Numbered;
    if k > low {
      PairsAfter(a, b, low, k - 1);
      SameName(a, b, k - 1, low);
      if IsLive(a[k - 1]) {
        var x := Pair(NameAt(a, k - 1), a[k - 1]);
        Extended(Pairs(a, low), Pairs(a, k - 1), x);
        Extended(Pairs(b, low), Pairs(b, k - 1), x);
      }
    }
  }

  lemma Extended<X>(p: seq<X>, s: seq<X>, x: X)
    requires p <= s
    ensures p <= s + [x] && (s + [x])[|p|..] == s[|p|..] + [x]
  {
  }

  lemma PairsSkip(a: seq<Slot>, low: nat, k: nat)
    requires low <= k <= |a| && forall j :: low <= j < k ==> !IsLive(a[j])
    ensures Pairs(a, k) == Pairs(a, low)
  {
    hide IsLongText, IsInvalid, Text, Ordinal;
    if k > low {
      PairsSkip(a, low, k - 1);
    }
  }

  lemma PairsStep(a: seq<Slot>, k: nat)
    requires k < |a|
    ensures Pairs(a, k + 1) == Pairs(a, k) + if IsLive(a[k]) then [Pair(NameAt(a, k), a[k])] else []
  {
    hide IsLive, NameAt;
  }

  lemma PairsPrefix(a: seq<Slot>, low: nat, k: nat)
    requires low <= k <= |a|
    ensures Pairs(a, low) <= Pairs(a, k)
  {
    hide IsLongText, IsInvalid, Text, Ordinal;
    if k > low {
      PairsPrefix(a, low, k - 1);
    }
  }

  lemma SameRest<X>(p: seq<X>, q: seq<X>, s: seq<X>, t: seq<X>)
    requires p <= s && q <= t && s[|p|..] == t[|q|..]
    ensures s == p + s[|p|..] && t == q + s[|p|..]
  {
  }

  // ----- inserting

  /** n slots from at may be overwritten: no short entry in use among them, and none owns a long name there. */
  ghost predicate Room(slots: seq<Slot>, at: nat, n: nat, end: nat) {
    && n >= 1 && at + n - 1 <= end < |slots|
    && !IsLongText(slots[end])
    && (forall j :: at <= j <= end ==> !IsOccupied(slots[j]))
    && (at > 0 ==> !IsLongText(slots[at - 1]))
  }

  /** The slots of a new entry: its long name, highest ordinal first, then its record. */
  ghost predicate IsEntry(entry: seq<Slot>, name: seq<byte>, record: Slot) {
    && CString(name) && name != [] && 0xFF !in name && EntriesRequired(name) <= MAX_ENTRIES
    && |entry| == EntriesRequired(name) + 1
    && (forall i :: 0 <= i < |entry| - 1 ==>
          var e := |entry| - 2 - i;
          IsLongText(entry[i]) && Ordinal(entry[i]) == e + 1 && Text(entry[i]) == Chunk(name, e))
    && entry[|entry| - 1] == record && IsLive(record)
  }

  function Overwritten(slots: seq<Slot>, at: nat, entry: seq<Slot>): (r: seq<Slot>)
    requires at + |entry| <= |slots|
    ensures |r| == |slots|
    ensures forall k :: 0 <= k < |slots| ==> r[k] == if at <= k < at + |entry| then entry[k - at] else slots[k]
  {
    slots[..at] + entry + slots[at + |entry|..]
  }

  /** Before slot at+|entry|-1-m of the overwritten row stand long-name slots from ordinal m+1 on. */
  lemma EntryRun(slots: seq<Slot>, at: nat, entry: seq<Slot>, name: seq<byte>, record: Slot, m: nat)
    requires at + |entry| <= |slots| && IsEntry(entry, name, record)
    requires at > 0 ==> !IsLongText(slots[at - 1])
    requires m <= |entry| - 1
    ensures RunLength(Overwritten(slots, at, entry), at + |entry| - 1 - m) == |entry| - 1 - m
    ensures Numbered(Overwritten(slots, at, entry), at + |entry| - 1 - m, m + 1)
    ensures Chunks(name, m) + RunText(Overwritten(slots, at, entry), at + |entry| - 1 - m) == Chunks(name, |entry| - 1)
    decreases |entry| - m
  {
    hide IsLongText, IsInvalid, Text, Ordinal, Chunk, Overwritten, CString, IsLive, RunText, RunLength, Numbered;
    var b := Overwritten(slots, at, entry);
    var k := at + |entry| - 1 - m;
    if m < |entry| - 1 {
      assert b[k - 1] == entry[|entry| - 2 - m];
      RunStep(b, k, m + 1);
      EntryRun(slots, at, entry, name, record, m + 1);
      Regroup(Chunks(name, m), Chunk(name, m), RunText(b, k - 1));
    } else {
      assert k > 0 ==> b[k - 1] == slots[k - 1];
      RunEnd(b, k, m + 1);
    }
  }

  lemma RunStep(slots: seq<Slot>, k: nat, i: nat)
    requires 0 < k <= |slots| && IsLongText(slots[k - 1])
    ensures RunLength(slots, k) == 1 + RunLength(slots, k - 1)
    ensures RunText(slots, k) == Text(slots[k - 1]) + RunText(slots, k - 1)
    ensures 1 <= i <= MAX_ENTRIES && Ordinal(slots[k - 1]) == i && Numbered(slots, k - 1, i + 1) ==>
              Numbered(slots, k, i)
  {
  }

  lemma RunEnd(slots: seq<Slot>, k: nat, i: nat)
    requires k <= |slots| && (k > 0 ==> !IsLongText(slots[k - 1]))
    ensures RunLength(slots, k) == 0 && RunText(slots, k) == [] && Numbered(slots, k, i)
  {
  }

  lemma Regroup<X>(a: seq<X>, b: seq<X>, c: seq<X>)
    ensures a + (b + c) == a + b + c
  {
  }

  /** The name read back in front of the new record is the name that was written. */
  lemma EntryName(slots: seq<Slot>, at: nat, entry: seq<Slot>, name: seq<byte>, record: Slot)
    requires at + |entry| <= |slots| && IsEntry(entry, name, record)
    requires at > 0 ==> !IsLongText(slots[at - 1])
    ensures NameAt(Overwritten(slots, at, entry), at + |entry| - 1) == name
    ensures Numbered(Overwritten(slots, at, entry), at + |entry| - 1, 1)
  {
    assert |entry| > 1;
    hide IsLongText, IsInvalid, Text, Ordinal, IsLive, Numbered;
    EntryRun(slots, at, entry, name, record, 0);
    ChunksRoundTrip(name);
    var t := RunText(Overwritten(slots, at, entry), at + |entry| - 1);
    assert Chunks(name, 0) + t == t;
  }

  /** Adding an entry inserts exactly its pair and keeps the order of the others. */
  lemma InsertPair(slots: seq<Slot>, at: nat, entry: seq<Slot>, name: seq<byte>, record: Slot, end: nat)
    requires Room(slots, at, |entry|, end) && IsEntry(entry, name, record)
    ensures Pairs(slots, at) <= Listing(slots)
    ensures Listing(Overwritten(slots, at, entry))
         == Pairs(slots, at) + [Pair(name, record)] + Listing(slots)[|Pairs(slots, at)|..]
  {
    var b, n := Overwritten(slots, at, entry), |entry|;
    var p, q := Pairs(slots, at), Pairs(slots, at) + [Pair(name, record)];
    assert Pairs(slots, end + 1) == p && Pairs(b, end + 1) == q by {
      PairsAround(slots, at, entry, name, record, end);
    }
    NewSlots(slots, at, entry, name, record, end);
    assert !IsLongText(slots[end]) && !IsLongText(b[end]);
    hide IsLive, IsLongText, IsInvalid, IsOccupied, NameAt, IsEntry, Pairs;
    PairsAfter(slots, b, end + 1, |slots|);
    SameRest(p, q, Pairs(slots, |slots|), Pairs(b, |b|));
  }

  lemma PairsAround(slots: seq<Slot>, at: nat, entry: seq<Slot>, name: seq<byte>, record: Slot, end: nat)
    requires Room(slots, at, |entry|, end) && IsEntry(entry, name, record)
    ensures Pairs(slots, end + 1) == Pairs(slots, at)
    ensures Pairs(Overwritten(slots, at, entry), end + 1) == Pairs(slots, at) + [Pair(name, record)]
  {
    hide Room, IsLive, IsLongText, IsInvalid, IsOccupied, NameAt, IsEntry, Numbered, Overwritten, Pairs;
    RoomShape(slots, at, entry, name, record, end);
    var b, n := Overwritten(slots, at, entry), |entry|;
    NewSlots(slots, at, entry, name, record, end);
    EntryName(slots, at, entry, name, record);
    PairsSame(slots, b, at);
    PairsSkip(slots, at, end + 1);
    PairsSkip(b, at, at + n - 1);
    PairsStep(b, at + n - 1);
    PairsSkip(b, at + n, end + 1);
  }

  lemma RoomShape(slots: seq<Slot>, at: nat, entry: seq<Slot>, name: seq<byte>, record: Slot, end: nat)
    requires Room(slots, at, |entry|, end) && IsEntry(entry, name, record)
    ensures |entry| >= 1 && at + |entry| - 1 <= end < |slots| && (at > 0 ==> !IsLongText(slots[at - 1]))
    ensures !IsLongText(slots[end]) && IsLive(record)
  {
  }

  /** Which slots around the new entry are live. */
  lemma NewSlots(slots: seq<Slot>, at: nat, entry: seq<Slot>, name: seq<byte>, record: Slot, end: nat)
    requires Room(slots, at, |entry|, end) && IsEntry(entry, name, record)
    ensures forall k :: at <= k <= end ==> !IsLive(slots[k])
    ensures forall k :: at <= k <= end ==> (IsLive(Overwritten(slots, at, entry)[k]) <==> k == at + |entry| - 1)
    ensures !IsLongText(Overwritten(slots, at, entry)[end])
    ensures Overwritten(slots, at, entry)[at + |entry| - 1] == record
  {
    hide Text, Ordinal, Chunk;
    forall k | at <= k <= end
      ensures !IsLive(slots[k]) && (IsLive(Overwritten(slots, at, entry)[k]) <==> k == at + |entry| - 1)
    {
      assert !IsOccupied(slots[k]);
    }
  }

  lemma InsertWellFormed(slots: seq<Slot>, at: nat, entry: seq<Slot>, name: seq<byte>, record: Slot, end: nat)
    requires WellFormed(slots) && Room(slots, at, |entry|, end) && IsEntry(entry, name, record)
    ensures WellFormed(Overwritten(slots, at, entry))
  {
    hide Room, IsLive, IsLongText, IsInvalid, IsOccupied, NameAt, IsEntry, Numbered, Overwritten, RunText, RunLength;
    RoomShape(slots, at, entry, name, record, end);
    var b, n := Overwritten(slots, at, entry), |entry|;
    NewSlots(slots, at, entry, name, record, end);
    EntryName(slots, at, entry, name, record);
    forall k | 0 <= k < |b| && IsLive(b[k]) ensures Numbered(b, k, 1) {
      if k < at {
        RunSame(slots, b, k, 0, 1);
      } else if k > end {
        RunSame(slots, b, k, end + 1, 1);
      }
    }
  }

  /** Fresh blank slots at the end list nothing. */
  lemma BlankTail(slots: seq<Slot>, tail: seq<Slot>)
    requires WellFormed(slots) && forall i :: 0 <= i < |tail| ==> tail[i][0] == 0 && tail[i][11] == 0
    ensures WellFormed(slots + tail)
    ensures Listing(slots + tail) == Listing(slots)
  {
    var b := slots + tail;
    assert forall i :: 0 <= i < |tail| ==> !IsLive(tail[i]) && !IsLongText(tail[i]);
    hide IsLive, IsLongText, IsInvalid, Text, Ordinal, NameAt;
    PairsSame(slots, b, |slots|);
    PairsSkip(b, |slots|, |b|);
    forall k | 0 <= k < |b| && IsLive(b[k]) ensures Numbered(b, k, 1) {
      RunSame(slots, b, k, 0, 1);
    }
  }

  // ----- deleting and changing a record

  /** Changing one live slot changes only its pair, or removes it if the slot is live no more. */
  lemma ReplacePair(slots: seq<Slot>, k: nat, s: Slot)
    requires k < |slots| && IsLive(slots[k]) && !IsLongText(s)
    requires IsLive(s) ==> slots[k][..12] == s[..12]
    ensures |Pairs(slots, k)| < |Listing(slots)|
    ensures Listing(slots)[|Pairs(slots, k)|] == Pair(NameAt(slots, k), slots[k])
    ensures Listing(slots[k := s])
         == Listing(slots)[..|Pairs(slots, k)|]
          + (if IsLive(s) then [Pair(NameAt(slots, k), s)] else [])
          + Listing(slots)[|Pairs(slots, k)| + 1..]
  {
    var b := slots[k := s];
    PairsSame(slots, b, k);
    assert !IsLongText(slots[k]);
    assert IsLive(s) ==> NameAt(b, k) == NameAt(slots, k) by {
      hide IsLongText, IsInvalid, Text, Ordinal, Numbered;
      RunSame(slots, b, k, 0, 1);
      if IsLive(s) {
        SameDisplay(slots[k], s);
      }
    }
    assert Pairs(b, k + 1) == Pairs(slots, k) + if IsLive(s) then [Pair(NameAt(slots, k), s)] else [];
    hide IsLive, IsLongText, IsInvalid, NameAt, Numbered;
    assert Pairs(slots, k + 1) == Pairs(slots, k) + [Pair(NameAt(slots, k), slots[k])];
    PairsAfter(slots, b, k + 1, |slots|);
    hide Pairs;
    SameRest(Pairs(slots, k + 1), Pairs(b, k + 1), Pairs(slots, |slots|), Pairs(b, |b|));
  }

  lemma SameDisplay(s: Slot, t: Slot)
    requires s[..12] == t[..12]
    ensures ShortDisplay(s) == ShortDisplay(t)
  {
    assert forall i :: 0 <= i < 12 ==> s[i] == s[..12][i] && t[i] == t[..12][i];
    assert s[..8] == t[..8] && s[8..11] == t[8..11];
  }

  lemma ReplaceWellFormed(slots: seq<Slot>, k: nat, s: Slot)
    requires WellFormed(slots) && k < |slots| && IsLive(slots[k]) && !IsLongText(s)
    ensures WellFormed(slots[k := s])
  {
    var b := slots[k := s];
    assert !IsLongText(slots[k]);
    hide IsLongText, IsInvalid, Text, Ordinal, Numbered;
    forall j | 0 <= j < |b| && IsLive(b[j]) ensures Numbered(b, j, 1) {
      if j <= k {
        RunSame(slots, b, j, 0, 1);
      } else {
        RunSame(slots, b, j, k + 1, 1);
      }
    }
  }

  // ----- the cache while a directory is scanned

  /** After slots[..k] the cache holds the run of long-name slots that ends there, if it is numbered. */
  ghost predicate Gathered(slots: seq<Slot>, k: nat, text: seq<byte>, count: nat)
    requires k <= |slots|
  {
    && |text| == CHARS * MAX_ENTRIES + 1
    && count <= MAX_ENTRIES
    && (RunLength(slots, k) == 0 ==> count == 0)
    && (RunLength(slots, k) > 0 ==> var i := Ordinal(slots[k - 1]);
          i >= 1 && Numbered(slots, k, i) ==>
            && count == i - 1 + RunLength(slots, k)
            && text[(i - 1) * CHARS..count * CHARS] == RunText(slots, k))
  }

  lemma NumberedBound(slots: seq<Slot>, k: nat, i: nat)
    requires k <= |slots| && RunLength(slots, k) > 0 && Numbered(slots, k, i)
    ensures i - 1 + RunLength(slots, k) <= MAX_ENTRIES
  {
    if RunLength(slots, k - 1) > 0 {
      NumberedBound(slots, k - 1, i + 1);
    }
  }

  /** Taking a long-name slot into the cache keeps up with the scan. */
  lemma GatherStep(slots: seq<Slot>, k: nat, text: seq<byte>, count: nat, text': seq<byte>, count': nat)
    requires k < |slots| && IsLongText(slots[k]) && Gathered(slots, k, text, count)
    requires !(1 <= Ordinal(slots[k]) <= MAX_ENTRIES) ==> count' == count && text' == text
    requires 1 <= Ordinal(slots[k]) <= MAX_ENTRIES ==> count' == if count == 0 then Ordinal(slots[k]) else count
    requires 1 <= Ordinal(slots[k]) <= MAX_ENTRIES ==> text' == Taken(text, slots[k])
    ensures Gathered(slots, k + 1, text', count')
  {
    var i := Ordinal(slots[k]);
    hide Text, Ordinal, IsInvalid, IsLongText, Overlaid;
    if Numbered(slots, k + 1, i) {
      if RunLength(slots, k) > 0 {
        NumberedBound(slots, k, i + 1);
        OverlaidPart(text, (i - 1) * CHARS, Text(slots[k]), count * CHARS);
      } else {
        OverlaidPart(text, (i - 1) * CHARS, Text(slots[k]), i * CHARS);
      }
    }
  }

  /** From where it is laid on, the text begins with what was laid over it. */
  lemma OverlaidPart(text: seq<byte>, at: nat, t: seq<byte>, end: nat)
    requires at + |t| <= end <= |text|
    ensures Overlaid(text, at, t)[at..end] == t + text[at + |t|..end]
  {
  }
}
