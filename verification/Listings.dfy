/** What the slot scans and updates mean for the list of (name, record) pairs. */
module Listings {
  import opened Words
  import opened FatStrings
  import opened LongNames
  import opened Directories
  import opened DirScan
  import opened DirLookup

  /** The first pair with this name, or the end. */
  ghost predicate FirstIn(list: seq<Pair>, name: seq<byte>, i: nat) {
    && i <= |list|
    && (i < |list| ==> Normal(list[i].name) == Normal(name))
    && (forall j :: 0 <= j < i ==> Normal(list[j].name) != Normal(name))
  }

  /** The case of the name makes no difference to what is found. */
  lemma AnyCase(list: seq<Pair>, name: seq<byte>, name': seq<byte>, i: nat)
    requires SameButCase(name, name')
    ensures FirstIn(list, name, i) <==> FirstIn(list, name', i)
  {
    CaseIgnored(name, name');
  }

  /** The first pair with this short name, or the end. */
  ghost predicate FirstShortIn(list: seq<Pair>, short: ShortName, i: nat) {
    && i <= |list|
    && (i < |list| ==> SameShortName(list[i].record, short))
    && (forall j :: 0 <= j < i ==> !SameShortName(list[j].record, short))
  }

  /** A live slot is listed behind the pairs of the slots before it. */
  lemma Listed(slots: seq<Slot>, k: nat, n: nat)
    requires k < n <= |slots| && IsLive(slots[k])
    ensures |Pairs(slots, k)| < |Pairs(slots, n)|
    ensures Pairs(slots, n)[|Pairs(slots, k)|] == Pair(NameAt(slots, k), slots[k])
  {
    hide IsLive, NameAt, Pairs;
    PairsStep(slots, k);
    PairsPrefix(slots, k + 1, n);
  }

  /** Every pair is that of a live slot. */
  lemma ListedFrom(slots: seq<Slot>, n: nat, i: nat) returns (k: nat)
    requires n <= |slots| && i < |Pairs(slots, n)|
    ensures k < n && IsLive(slots[k]) && |Pairs(slots, k)| == i
    ensures Pairs(slots, n)[i] == Pair(NameAt(slots, k), slots[k])
  {
    hide IsLive, NameAt;
    if IsLive(slots[n - 1]) && i == |Pairs(slots, n - 1)| {
      k := n - 1;
    } else {
      k := ListedFrom(slots, n - 1, i);
    }
  }

  lemma PairsGrow(slots: seq<Slot>, k: nat, n: nat)
    requires k <= n <= |slots|
    ensures |Pairs(slots, k)| <= |Pairs(slots, n)|
  {
    hide *;
    PairsPrefix(slots, k, n);
  }

  /** The lookup by name, on the list. */
  lemma NamedOnList(slots: seq<Slot>, name: seq<byte>, k: nat)
    requires FirstNamed(slots, name, k)
    ensures FirstIn(Listing(slots), name, |Pairs(slots, k)|)
    ensures k < |slots| <==> |Pairs(slots, k)| < |Listing(slots)|
    ensures k < |slots| ==> Listing(slots)[|Pairs(slots, k)|] == Pair(NameAt(slots, k), slots[k])
  {
    hide IsLive, NameAt, Pairs, Normal;
    var list := Listing(slots);
    if k < |slots| {
      Listed(slots, k, |slots|);
    }
    forall j | 0 <= j < |Pairs(slots, k)| && j < |list| ensures Normal(list[j].name) != Normal(name) {
      var m := ListedFrom(slots, |slots|, j);
      if m >= k {
        PairsGrow(slots, k, m);
      }
      assert !Named(slots, m, name);
    }
  }

  /** The lookup by short name, on the list. */
  lemma ShortOnList(slots: seq<Slot>, short: ShortName, k: nat)
    requires FirstShort(slots, short, k)
    ensures FirstShortIn(Listing(slots), short, |Pairs(slots, k)|)
    ensures k < |slots| <==> |Pairs(slots, k)| < |Listing(slots)|
    ensures k < |slots| ==> Listing(slots)[|Pairs(slots, k)|] == Pair(NameAt(slots, k), slots[k])
  {
    hide IsLive, NameAt, Pairs, SameShortName;
    var list := Listing(slots);
    if k < |slots| {
      Listed(slots, k, |slots|);
    }
    forall j | 0 <= j < |Pairs(slots, k)| && j < |list| ensures !SameShortName(list[j].record, short) {
      var m := ListedFrom(slots, |slots|, j);
      if m >= k {
        PairsGrow(slots, k, m);
      }
    }
  }

  /** A short name is in use on the list exactly if a scan of the slots meets it. */
  ghost predicate TakenShort(list: seq<Pair>, short: ShortName) {
    exists i :: 0 <= i < |list| && SameShortName(list[i].record, short)
  }

  lemma TakenOnList(slots: seq<Slot>, short: ShortName)
    ensures TakenShort(Listing(slots), short) <==> !NoShort(slots, short, |slots|)
  {
    hide IsLive, NameAt, Pairs, SameShortName;
    if !NoShort(slots, short, |slots|) {
      var k :| 0 <= k < |slots| && IsLive(slots[k]) && SameShortName(slots[k], short);
      Listed(slots, k, |slots|);
      assert Listing(slots)[|Pairs(slots, k)|].record == slots[k];
    }
    if TakenShort(Listing(slots), short) {
      var i :| 0 <= i < |Listing(slots)| && SameShortName(Listing(slots)[i].record, short);
      var k := ListedFrom(slots, |slots|, i);
    }
  }

  lemma DeletedIsNotLive(s: Slot)
    requires IsLive(s)
    ensures !IsLive(Deleted(s)) && !IsLongText(Deleted(s))
  {
  }

  /** Marking a record deleted removes exactly its pair. */
  lemma DeleteOnList(slots: seq<Slot>, k: nat)
    requires WellFormed(slots) && k < |slots| && IsLive(slots[k])
    ensures WellFormed(slots[k := Deleted(slots[k])])
    ensures |Pairs(slots, k)| < |Listing(slots)|
    ensures Listing(slots[k := Deleted(slots[k])]) == Without(Listing(slots), |Pairs(slots, k)|)
  {
    hide IsLive, IsLongText, WellFormed, Pairs, NameAt, Deleted;
    DeletedIsNotLive(slots[k]);
    ReplacePair(slots, k, Deleted(slots[k]));
    ReplaceWellFormed(slots, k, Deleted(slots[k]));
  }

  function Without<X>(s: seq<X>, i: nat): (r: seq<X>)
    requires i < |s|
    ensures |r| == |s| - 1
    ensures forall j :: 0 <= j < |r| ==> r[j] == s[if j < i then j else j + 1]
  {
    s[..i] + s[i + 1..]
  }

  lemma SizeKeepsKind(s: Slot, size: u32)
    ensures |WithSize(s, size)| == 32 && s[..12] == WithSize(s, size)[..12]
    ensures s[..28] == WithSize(s, size)[..28]
    ensures IsLive(WithSize(s, size)) == IsLive(s) && IsLongText(WithSize(s, size)) == IsLongText(s)
  {
  }

  /** A new size changes the size in one record and nothing else. */
  lemma ResizeOnList(slots: seq<Slot>, k: nat, size: u32)
    requires WellFormed(slots) && k < |slots| && IsLive(slots[k])
    ensures WellFormed(slots[k := WithSize(slots[k], size)])
    ensures |Pairs(slots, k)| < |Listing(slots)|
    ensures Listing(slots[k := WithSize(slots[k], size)])
         == Listing(slots)[|Pairs(slots, k)| := Pair(NameAt(slots, k), WithSize(slots[k], size))]
  {
    var s := WithSize(slots[k], size);
    SizeKeepsKind(slots[k], size);
    assert !IsLongText(slots[k]);
    hide IsLive, IsLongText, WellFormed, Pairs, NameAt, WithSize;
    ReplacePair(slots, k, s);
    ReplaceWellFormed(slots, k, s);
  }
}
