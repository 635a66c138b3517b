/** Directory slots, and long names spread over runs of them. */
module LongNames {
  import opened Words
  import opened FatStrings

  type Slot = s: seq<byte> | |s| == 32 witness seq(32, _ => 0)

  const CHARS := 13        // name bytes in one long-name slot
  const MAX_ENTRIES := 20  // long-name slots of one name

  /** Where the name bytes of a long-name slot lie. */
  function CharPos(i: nat): (p: nat)
    requires i < CHARS
  {
    [1, 3, 5, 7, 9, 0x0E, 0x10, 0x12, 0x14, 0x16, 0x18, 0x1C, 0x1E][i]
  }

  lemma CharPosIs(i: nat)
    requires i < CHARS
    ensures CharPos(i) == if i < 5 then 2 * i + 1 else if i < 11 then 2 * i + 4 else 2 * i + 6
  {
    if i < 6 {
    } else if i < 10 {
    }
  }

  // ----- what the driver asks of a slot

  function Attr(s: Slot): byte { s[11] }

  /** fatfs_entry_lfn_text. */
  predicate IsLongText(s: Slot) { Attr(s) % 16 == 15 }

  /** fatfs_entry_lfn_invalid: blank, deleted, volume label, hidden or system. */
  predicate IsInvalid(s: Slot) {
    s[0] == 0 || s[0] == 0xE5 || Attr(s) == 8 || Attr(s) / 2 % 4 != 0
  }

  /** A slot that names a file or directory. */
  predicate IsLive(s: Slot) { !IsLongText(s) && !IsInvalid(s) }

  /** A short entry that is neither blank nor deleted. */
  predicate IsOccupied(s: Slot) { !IsLongText(s) && s[0] != 0 && s[0] != 0xE5 }

  /** fatfs_entry_is_dir. */
  predicate IsDirectory(s: Slot) { Attr(s) / 16 % 2 == 1 }

  function Ordinal(s: Slot): nat { s[0] % 32 }

  /** The name bytes of a long-name slot as the cache takes them: 0xFF reads as a space. */
  function Text(s: Slot): (t: seq<byte>)
    ensures |t| == CHARS
  {
    seq(CHARS, i requires 0 <= i < CHARS => (CharPosIs(i); var b := s[CharPos(i)]; if b == 0xFF then SPACE else b))
  }

  // ----- writing

  /** fatfs_lfn_entries_required. */
  function EntriesRequired(name: seq<byte>): nat {
    if |name| > 0 then (|name| + CHARS - 1) / CHARS else 0
  }

  /** The 13 bytes that slot entry of a name stores, as they read back. */
  function Chunk(name: seq<byte>, entry: nat): (t: seq<byte>)
    ensures |t| == CHARS
  {
    seq(CHARS, i requires 0 <= i < CHARS =>
      var k := entry * CHARS + i;
      if k < |name| then (if name[k] == 0xFF then SPACE else name[k]) else if k == |name| then 0 else SPACE)
  }

  /** fatfs_filename_to_lfn. */
  method WriteLongSlot(name: seq<byte>, entry: nat, checksum: byte) returns (slot: Slot)
    requires CString(name) && entry < EntriesRequired(name) <= MAX_ENTRIES
    ensures Text(slot) == Chunk(name, entry)
    ensures IsLongText(slot) && Ordinal(slot) == entry + 1
    ensures slot[0] == (if entry + 1 == EntriesRequired(name) then 0x40 else 0) + entry + 1
    ensures slot[11] == 0x0F && slot[12] == 0 && slot[13] == checksum && slot[26] == 0 && slot[27] == 0
    ensures forall i :: 0 <= i < CHARS ==> Padding(name, 13 * entry + i, slot, CharPos(i))
  {
    var required := EntriesRequired(name);
    var start := entry * CHARS;
    var buffer: seq<byte> := seq(32, _ => 0);
    buffer := buffer[0 := if required - 1 == entry then 0x40 + (entry + 1) else entry + 1];
    buffer := buffer[11 := 0x0F];
    buffer := buffer[13 := checksum];
    ghost var head := buffer[0];
    for i := 0 to CHARS
      invariant |buffer| == 32 && buffer[0] == head && buffer[11] == 0x0F && buffer[13] == checksum
      invariant buffer[12] == 0 && buffer[26] == 0 && buffer[27] == 0
      invariant forall j :: i <= j < CHARS ==> (CharPosIs(j); buffer[CharPos(j) + 1] == 0)
      invariant forall j :: 0 <= j < i ==> CharStored(name, start, j, buffer)
    {
      CharPosIs(i);
      ghost var was := buffer;
      if start + i < |name| {
        buffer := buffer[CharPos(i) := name[start + i]];
      } else if start + i == |name| {
        buffer := buffer[CharPos(i) := 0];
      } else {
        buffer := buffer[CharPos(i) := 0xFF][CharPos(i) + 1 := 0xFF];
      }
      forall j | 0 <= j <= i ensures CharStored(name, start, j, buffer) {
        CharPosIs(j);
        if j < i {
          assert CharStored(name, start, j, was) && CharPos(j) + 1 < CharPos(i);
        }
      }
      forall j | i < j < CHARS ensures (CharPosIs(j); buffer[CharPos(j) + 1] == 0) {
        CharPosIs(j);
      }
    }
    slot := buffer;
    forall j | 0 <= j < CHARS
      ensures Text(slot)[j] == Chunk(name, entry)[j] && Padding(name, 13 * entry + j, slot, CharPos(j))
    {
      CharPosIs(j);
      assert CharStored(name, start, j, buffer);
    }
  }

  /** The second byte of a character: 0, or 0xFF behind the end of the name. */
  ghost predicate Padding(name: seq<byte>, k: nat, slot: Slot, p: nat) {
    p + 1 < 32 && slot[p + 1] == if k <= |name| then 0 else 0xFF
  }

  ghost predicate CharStored(name: seq<byte>, start: nat, j: nat, buffer: seq<byte>)
    requires j < CHARS && |buffer| == 32
  {
    CharPosIs(j);
    var b := buffer[CharPos(j)];
    && (if start + j < |name| then b == name[start + j] else if start + j == |name| then b == 0 else b == 0xFF)
    && buffer[CharPos(j) + 1] == if start + j <= |name| then 0 else 0xFF
  }

  // ----- the bytes

  /** The attribute byte, bit by bit. */
  lemma AttributeBits(s: Slot, b: seq<nat>)
    requires |b| == 8 && forall i :: 0 <= i < 8 ==> b[i] <= 1
    requires s[11] == 128 * b[7] + 64 * b[6] + 32 * b[5] + 16 * b[4] + 8 * b[3] + 4 * b[2] + 2 * b[1] + b[0]
    ensures IsLongText(s) <==> b[0] == 1 && b[1] == 1 && b[2] == 1 && b[3] == 1
    ensures IsDirectory(s) <==> b[4] == 1
    ensures IsInvalid(s) <==> s[0] == 0 || s[0] == 0xE5 || s[11] == 8 || b[1] == 1 || b[2] == 1
    ensures IsLive(s) <==> s[0] != 0 && s[0] != 0xE5 && s[11] != 8 && b[1] == 0 && b[2] == 0
    ensures IsOccupied(s) <==> s[0] != 0 && s[0] != 0xE5 && !(b[0] == 1 && b[1] == 1 && b[2] == 1 && b[3] == 1)
  {
    assert s[11] % 16 == 8 * b[3] + 4 * b[2] + 2 * b[1] + b[0];
    assert s[11] / 16 % 2 == b[4];
    assert s[11] / 2 % 4 == 2 * b[2] + b[1];
  }

  /** Where a long-name slot has its ordinal and its 13 characters. */
  lemma LongSlotBytes(s: Slot, i: nat)
    requires i < 13
    ensures |Text(s)| == 13
    ensures var b := s[if i < 5 then 2 * i + 1 else if i < 11 then 2 * i + 4 else 2 * i + 6];
      Text(s)[i] == if b == 0xFF then 0x20 else b
    ensures s[0] < 64 && s[0] >= 32 ==> Ordinal(s) == s[0] - 32
    ensures s[0] < 32 ==> Ordinal(s) == s[0]
    ensures 64 <= s[0] < 96 ==> Ordinal(s) == s[0] - 64
  {
    CharPosIs(i);
  }

  /** A name takes a slot for every 13 bytes begun, and slot entry has those from 13 * entry on. */
  lemma ChunkBytes(name: seq<byte>, entry: nat, i: nat)
    requires i < 13
    ensures 13 * EntriesRequired(name) - 13 < |name| <= 13 * EntriesRequired(name) || name == []
    ensures |Chunk(name, entry)| == 13
    ensures 13 * entry + i < |name| && name[13 * entry + i] != 0xFF ==>
              Chunk(name, entry)[i] == name[13 * entry + i]
    ensures 13 * entry + i == |name| ==> Chunk(name, entry)[i] == 0
    ensures 13 * entry + i > |name| ==> Chunk(name, entry)[i] == 0x20
  {
  }

  // ----- reading

  function Overlaid(s: seq<byte>, at: nat, t: seq<byte>): (r: seq<byte>)
    requires at + |t| <= |s|
    ensures |r| == |s|
  {
    s[..at] + t + s[at + |t|..]
  }

  /** The cache text after the chunk of a slot is laid over it. */
  function Taken(text: seq<byte>, slot: Slot): (r: seq<byte>)
    requires 1 <= Ordinal(slot) <= MAX_ENTRIES && |text| == CHARS * MAX_ENTRIES + 1
    ensures |r| == |text|
  {
    Overlaid(text, (Ordinal(slot) - 1) * CHARS, Text(slot))
  }

  /** struct lfn_cache: String[20][13] with the byte Null behind it, and no_of_strings. */
  class LongNameCache {
    const text: array<byte>
    var count: nat

    ghost predicate Valid()
      reads this, text
    {
      text.Length == CHARS * MAX_ENTRIES + 1 && count <= MAX_ENTRIES
    }

    /** fatfs_lfn_cache_init with wipeTable set. */
    constructor ()
      ensures Valid() && count == 0 && fresh(text)
    {
      text := new byte[CHARS * MAX_ENTRIES + 1](_ => 0);
      count := 0;
    }

    /** fatfs_lfn_cache_init without wiping. */
    method Reset()
      requires Valid()
      modifies `count
      ensures Valid() && count == 0
    {
      count := 0;
    }

    /** fatfs_lfn_cache_entry. */
    method Take(slot: Slot)
      requires Valid()
      modifies this, text
      ensures Valid()
      ensures !(1 <= Ordinal(slot) <= MAX_ENTRIES) ==> count == old(count) && text[..] == old(text[..])
      ensures 1 <= Ordinal(slot) <= MAX_ENTRIES ==> count == if old(count) == 0 then Ordinal(slot) else old(count)
      ensures 1 <= Ordinal(slot) <= MAX_ENTRIES ==> text[..] == Taken(old(text[..]), slot)
    {
      var index := slot[0] % 32;
      if index > MAX_ENTRIES || index == 0 {
        return;
      }
      if count == 0 {
        count := index;
      }
      var base := (index - 1) * CHARS;
      for i := 0 to CHARS
        invariant count == if old(count) == 0 then index else old(count)
        invariant forall j :: base <= j < base + i ==> text[j] == Text(slot)[j - base]
        invariant forall j :: 0 <= j < text.Length && !(base <= j < base + i) ==> text[j] == old(text[j])
      {
        CharPosIs(i);
        var b := slot[CharPos(i)];
        text[base + i] := if b == 0xFF then SPACE else b;
      }
    }

    /** fatfs_lfn_cache_get: the cached name as a C string. */
    method Get() returns (name: seq<byte>)
      requires Valid()
      modifies text
      ensures Valid()
      ensures name == UpToNul(old(text[..count * CHARS]))
    {
      if count == MAX_ENTRIES {
        text[CHARS * MAX_ENTRIES] := 0;
      } else if count != 0 {
        text[count * CHARS] := 0;
      } else {
        text[0] := 0;
      }
      name := UpToNul(text[..]);
      assert text[..] == text[..count * CHARS] + text[count * CHARS..];
      UpToNulPrefix(text[..count * CHARS], text[count * CHARS..]);
      assert text[..count * CHARS] == old(text[..count * CHARS]);
    }
  }

  // ----- round trip

  /** The chunks 0 .. n-1 of a name. */
  function Chunks(name: seq<byte>, n: nat): (t: seq<byte>)
    ensures |t| == n * CHARS
  {
    if n == 0 then [] else Chunks(name, n - 1) + Chunk(name, n - 1)
  }

  lemma ChunksAt(name: seq<byte>, n: nat, k: nat)
    requires k < n * CHARS
    ensures Chunks(name, n)[k] ==
            if k < |name| then (if name[k] == 0xFF then SPACE else name[k]) else if k == |name| then 0 else SPACE
  {
    if k < (n - 1) * CHARS {
      ChunksAt(name, n - 1, k);
    }
  }

  /** What the slots of a name store reads back as the name. */
  lemma ChunksRoundTrip(name: seq<byte>)
    requires CString(name) && 0xFF !in name && name != []
    ensures UpToNul(Chunks(name, EntriesRequired(name))) == name
  {
    var n := EntriesRequired(name);
    var t := Chunks(name, n);
    forall k | 0 <= k < |t|
      ensures t[k] == if k < |name| then name[k] else if k == |name| then 0 else SPACE
    {
      ChunksAt(name, n, k);
    }
    assert t == name + t[|name|..];
    UpToNulCut(name, t[|name|..]);
  }
}
