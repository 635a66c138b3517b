/** Lookup of a directory entry by its name. */
module DirLookup {
  import opened Words
  import opened Contents
  import opened FatStrings
  import opened LongNames
  import opened Directories
  import opened Access
  import opened DirScan

  ghost predicate Named(slots: seq<Slot>, k: nat, name: seq<byte>)
    requires k < |slots|
  {
    IsLive(slots[k]) && Normal(NameAt(slots, k)) == Normal(name)
  }

  ghost predicate NoneNamed(slots: seq<Slot>, k: nat, name: seq<byte>) {
    forall j :: 0 <= j < k && j < |slots| ==> !Named(slots, j, name)
  }

  /** Slot k is the first whose name matches, or there is none and k is past the end. */
  ghost predicate FirstNamed(slots: seq<Slot>, name: seq<byte>, k: nat) {
    k <= |slots| && (k < |slots| ==> Named(slots, k, name)) && NoneNamed(slots, k, name)
  }

  /** fatfs_entry_sfn_only; with a non-empty cache it is fatfs_entry_lfn_exists. */
  predicate IsShortOnly(s: Slot) { Attr(s) != 0x0F && !IsInvalid(s) }

  /** Before a live slot of a well-formed directory the cache holds its long name, if it has one. */
  lemma GatheredName(slots: seq<Slot>, k: nat, text: seq<byte>, count: nat)
    requires WellFormed(slots) && k < |slots| && IsLive(slots[k]) && Gathered(slots, k, text, count)
    ensures count == 0 ==> NameAt(slots, k) == ShortDisplay(slots[k])
    ensures count > 0 ==> NameAt(slots, k) == UpToNul(text[..count * CHARS])
  {
    assert Numbered(slots, k, 1);
    if RunLength(slots, k) > 0 {
      assert Ordinal(slots[k - 1]) == 1;
      assert text[0..count * CHARS] == text[..count * CHARS];
    }
  }

  /**
   * A live record without a long name answers to its 8.3 name exactly if the extension is empty or has
   * all three bytes.
   */
  lemma AnswersExactly(slots: seq<Slot>, k: nat, stem: seq<byte>, extension: seq<byte>)
    requires k < |slots| && IsLive(slots[k]) && RunLength(slots, k) == 0
    requires NamePart(stem) && NamePart(extension) && HoldsShort(slots[k], stem, extension)
    ensures Named(slots, k, Written(stem, extension)) <==> |extension| == 0 || |extension| == 3
  {
    hide IsLive, Normal, ShortDisplay, HoldsShort, Written, NamePart;
    ShortFoundExactly(slots[k], stem, extension);
  }

  /** A.C is one that does not. */
  lemma Unfound(slots: seq<Slot>, k: nat)
    requires k < |slots| && IsLive(slots[k]) && RunLength(slots, k) == 0
    requires slots[k][0] == 0x41 && (forall i :: 1 <= i < 8 ==> slots[k][i] == 0x20)
    requires slots[k][8] == 0x43 && slots[k][9] == 0x20 && slots[k][10] == 0x20
    ensures !Named(slots, k, [0x41, 0x2E, 0x43])
  {
    hide IsLive, Normal, ShortDisplay;
    AnswersExactly(slots, k, [0x41], [0x43]);
    assert Written([0x41], [0x43]) == [0x41, 0x2E, 0x43];
  }

  /** After anything but a long-name slot an empty cache is right. */
  lemma GatherNothing(slots: seq<Slot>, k: nat, text: seq<byte>)
    requires k < |slots| && !IsLongText(slots[k]) && |text| == CHARS * MAX_ENTRIES + 1
    ensures Gathered(slots, k + 1, text, 0)
  {
  }

  /** The 8.3 name spelled out as the lookup does. */
  method SpellShort(s: Slot) returns (name: seq<byte>)
    ensures name == ShortDisplay(s)
  {
    var short: seq<byte> := s[..8] + [SPACE] + s[8..11];
    var dotRequired := false;
    for i := 8 to 11
      invariant dotRequired <==> exists j :: 8 <= j < i && s[j] != SPACE
    {
      if s[i] != SPACE {
        dotRequired := true;
      }
    }
    assert dotRequired <==> s[8] != SPACE || s[9] != SPACE || s[10] != SPACE;
    if dotRequired && short[0] != DOT {
      short := short[8 := DOT];
    }
    assert short == s[..8] + [short[8]] + s[8..11];
    name := UpToNul(short);
  }

  /** The name the lookup compares a live slot under. */
  method NameOfEntry(slot: Slot, cache: LongNameCache, ghost slots: seq<Slot>, ghost k: nat) returns (name: seq<byte>)
    requires WellFormed(slots) && k < |slots| && slots[k] == slot && IsLive(slot)
    requires cache.Valid() && Gathered(slots, k, cache.text[..], cache.count)
    modifies cache, cache.text
    ensures cache.Valid() && cache.count == 0 && name == NameAt(slots, k)
  {
    GatheredName(slots, k, cache.text[..], cache.count);
    hide WellFormed, Gathered, IsLive, NameAt, ShortDisplay;
    if cache.count != 0 {
      assert cache.text[..][..cache.count * CHARS] == cache.text[..cache.count * CHARS];
      name := cache.Get();
    } else {
      name := SpellShort(slot);
    }
    cache.Reset();
  }

  /** One turn of the lookup loop. */
  method Consider(slot: Slot, name: seq<byte>, cache: LongNameCache, ghost slots: seq<Slot>, ghost k: nat)
    returns (found: bool)
    requires CString(name) && WellFormed(slots) && k < |slots| && slots[k] == slot
    requires cache.Valid() && Gathered(slots, k, cache.text[..], cache.count)
    modifies cache, cache.text
    ensures found <==> Named(slots, k, name)
    ensures cache.Valid() && Gathered(slots, k + 1, cache.text[..], cache.count)
  {
    hide WellFormed, Gathered, NameAt, Normal, Taken, Ordinal;
    found := false;
    ghost var text, count := cache.text[..], cache.count;
    if IsLongText(slot) {
      cache.Take(slot);
      GatherStep(slots, k, text, count, cache.text[..], cache.count);
    } else if IsInvalid(slot) {
      cache.Reset();
      GatherNothing(slots, k, cache.text[..]);
    } else if IsShortOnly(slot) {
      var spelled := NameOfEntry(slot, cache, slots, k);
      found := CompareNames(spelled, name);
      GatherNothing(slots, k, cache.text[..]);
    }
  }

  /** The loop over the entries of one sector. */
  method LookupInSector(sector: Sector, name: seq<byte>, cache: LongNameCache, ghost slots: seq<Slot>, ghost x: nat)
    returns (i: nat)
    requires CString(name) && WellFormed(slots) && 16 * x + 16 <= |slots|
    requires forall j :: 0 <= j < 16 ==> slots[16 * x + j] == SlotOf(sector, j)
    requires NoneNamed(slots, 16 * x, name)
    requires cache.Valid() && Gathered(slots, 16 * x, cache.text[..], cache.count)
    modifies cache, cache.text
    ensures cache.Valid() && i <= 16 && NoneNamed(slots, 16 * x + i, name)
    ensures i < 16 ==> Named(slots, 16 * x + i, name)
    ensures i == 16 ==> Gathered(slots, 16 * x + 16, cache.text[..], cache.count)
  {
    hide WellFormed, Named, Gathered, SlotOf;
    i := 0;
    var found := false;
    while i < 16 && !found
      invariant cache.Valid() && i <= 16 && NoneNamed(slots, 16 * x + i, name)
      invariant found ==> i < 16 && Named(slots, 16 * x + i, name)
      invariant !found ==> Gathered(slots, 16 * x + i, cache.text[..], cache.count)
      decreases 16 - i, !found
    {
      found := Consider(SlotOf(sector, i), name, cache, slots, 16 * x + i);
      if !found {
        i := i + 1;
      }
    }
  }

  lemma SlotsOfSector(secs: seq<Sector>, x: nat)
    requires x < |secs|
    ensures forall j :: 0 <= j < 16 ==> Slots(secs)[16 * x + j] == SlotOf(secs[x], j)
  {
    hide SlotOf;
    forall j | 0 <= j < 16 ensures Slots(secs)[16 * x + j] == SlotOf(secs[x], j) {
      assert (16 * x + j) / 16 == x && (16 * x + j) % 16 == j;
    }
  }

  /** The scan stopped at a match in sector x, which is the current one. */
  ghost predicate Hit(fs: FatFs, dir: seq<u32>, secs: seq<Sector>, x: nat, item: nat, name: seq<byte>)
    reads fs
  {
    && x < |secs| && item < 16 && fs.Window(dir, x) && fs.current == secs[x]
    && Named(Slots(secs), 16 * x + item, name)
  }

  /** The scan has seen sectors below x and left the last of them current. */
  ghost predicate Passed(fs: FatFs, dir: seq<u32>, x: nat, addressBefore: u32)
    reads fs`curAddress
  {
    if x == 0 then fs.curAddress == addressBefore else fs.Window(dir, x - 1)
  }

  /** The cache and the scan agree before sector x. */
  ghost predicate InStep(cache: LongNameCache, secs: seq<Sector>, x: nat, name: seq<byte>)
    reads cache, cache.text
  {
    && cache.Valid() && x <= |secs| && NoneNamed(Slots(secs), 16 * x, name)
    && Gathered(Slots(secs), 16 * x, cache.text[..], cache.count)
  }

  method LookupStep(fs: FatFs, start: u32, name: seq<byte>, cache: LongNameCache, ghost dir: seq<u32>,
      ghost secs: seq<Sector>, x: nat)
    returns (ok: bool, item: nat)
    requires fs.Valid() && DirChain(fs.geo, fs.table.T, start, dir) && CString(name) && WellFormed(Slots(secs))
    requires secs == Pick(fs.data, DirAddrs(fs.geo, dir)) && InStep(cache, secs, x, name)
    modifies fs, fs.table, fs.disk, cache, cache.text
    ensures fs.Valid() && fs.State() == old(fs.State())
    ensures ok <==> x < |secs|
    ensures !ok ==> fs.curAddress == old(fs.curAddress)
    ensures ok && item < 16 ==> Hit(fs, dir, secs, x, item, name) && NoneNamed(Slots(secs), 16 * x + item, name)
    ensures ok && item >= 16 ==> InStep(cache, secs, x + 1, name) && fs.Window(dir, x)
  {
    ghost var slots := Slots(secs);
    hide FatFs.Valid, FatFs.Window, DirAddrs, DirChain, Named, NoneNamed, Gathered, WellFormed, Pick, SlotOf;
    ok := fs.SectorReader(start, x, dir);
    item := 0;
    if ok {
      SlotsOfSector(secs, x);
      hide Slots;
      item := LookupInSector(fs.current, name, cache, slots, x);
    }
  }

  method LookupLoop(fs: FatFs, start: u32, name: seq<byte>, cache: LongNameCache, ghost dir: seq<u32>,
      ghost secs: seq<Sector>)
    returns (found: bool, x: nat, item: nat)
    requires fs.Valid() && DirChain(fs.geo, fs.table.T, start, dir) && CString(name) && WellFormed(Slots(secs))
    requires secs == Pick(fs.data, DirAddrs(fs.geo, dir)) && InStep(cache, secs, 0, name)
    modifies fs, fs.table, fs.disk, cache, cache.text
    ensures fs.Valid() && fs.State() == old(fs.State())
    ensures found ==> Hit(fs, dir, secs, x, item, name) && NoneNamed(Slots(secs), 16 * x + item, name)
    ensures !found ==> x == |secs| && Passed(fs, dir, x, old(fs.curAddress)) && NoneNamed(Slots(secs), 16 * x, name)
  {
    hide FatFs.Valid, FatFs.Window, DirAddrs, DirChain, NoneNamed, Hit, Gathered, WellFormed, Pick, LongNameCache.Valid;
    hide Slots;
    x, item, found := 0, 0, false;
    var ok := true;
    while ok && !found
      invariant fs.Valid() && fs.State() == old(fs.State())
      invariant found ==> x < |secs| && Hit(fs, dir, secs, x, item, name) && NoneNamed(Slots(secs), 16 * x + item, name)
      invariant !found ==> Passed(fs, dir, x, old(fs.curAddress)) && x <= |secs| && NoneNamed(Slots(secs), 16 * x, name)
      invariant !found && ok ==> InStep(cache, secs, x, name)
      invariant !ok ==> x == |secs|
      decreases |secs| - x, ok, !found
    {
      ok, item := LookupStep(fs, start, name, cache, dir, secs, x);
      if ok {
        if item < 16 {
          found := true;
        } else {
          x := x + 1;
        }
      }
    }
  }

  /** fatfs_get_file_entry: the record of the first entry whose name matches; slots are the directory's slots. */
  method GetFileEntry(fs: FatFs, start: u32, name: seq<byte>, ghost dir: seq<u32>, ghost slots: seq<Slot>)
    returns (found: bool, entry: Slot, ghost k: nat)
    requires fs.Valid() && DirChain(fs.geo, fs.table.T, start, dir) && CString(name)
    requires slots == DirSlots(fs.geo, fs.data, dir) && WellFormed(slots)
    modifies fs, fs.table, fs.disk
    ensures fs.Valid() && fs.State() == old(fs.State())
    ensures FirstNamed(slots, name, k) && (found <==> k < |slots|)
    ensures found ==> entry == slots[k] && fs.CurrentIn(dir)
    ensures fs.curAddress == old(fs.curAddress) || fs.CurrentIn(dir)
  {
    hide FatFs.Valid, FatFs.Window, DirAddrs, DirChain, NoneNamed, Named, Pick, WellFormed, SlotOf, InStep, Gathered;
    hide LongNameCache.Valid;
    ghost var secs := Pick(fs.data, DirAddrs(fs.geo, dir));
    var cache := new LongNameCache();
    LookupStart(cache, secs, name);
    var x, item;
    found, x, item := LookupLoop(fs, start, name, cache, dir, secs);
    if !found {
      item := 0;
      assert x > 0 ==> fs.Window(dir, x - 1);
    }
    k := 16 * x + item;
    entry := SlotOf(fs.current, item);
    if found {
      SlotsOfSector(secs, x);
    }
  }

  lemma LookupStart(cache: LongNameCache, secs: seq<Sector>, name: seq<byte>)
    requires cache.Valid() && cache.count == 0
    ensures InStep(cache, secs, 0, name)
  {
  }
}
