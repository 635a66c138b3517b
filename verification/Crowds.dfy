/**
 * Runs of the driver in which the short names of a directory run out: ten thousand names that
 * share their first eight letters.
 */
module Crowds {
  import opened Words
  import opened Layout
  import opened BlockDevice
  import opened FatStrings
  import opened LongNames
  import opened Directories
  import opened Access
  import opened Allocation
  import opened DirScan
  import opened DirInsert
  import opened ShortNames
  import opened Listings
  import opened ShortChoice
  import opened Volumes
  import opened Operations
  import opened Format
  import opened Lifetimes
  import opened Runs

  // ----- the names

  /** AAAAAAAA: what follows these letters does not count for the short name. */
  function Stub(): seq<byte> { seq(8, _ => 0x41) }

  /** AAAAAAAA0, AAAAAAAA1 and so on. */
  function Crowder(m: nat): seq<byte> { Stub() + Digits(m) }

  /** AAA~9999: what the last candidate for AAAAAAAA looks like. */
  function Usurper(): seq<byte> { Stub()[..3] + Tail(MAX_TAIL) }

  ghost function Base(): ShortName { BaseShort(Stub()) }

  /** Letters, digits and the tilde stay as they are. */
  predicate Plainly(s: seq<byte>) { forall i :: 0 <= i < |s| ==> s[i] != SPACE && s[i] != DOT && Upper(s[i]) == s[i] }

  lemma {:induction false} KeptPlainly(s: seq<byte>)
    requires Plainly(s)
    ensures Kept(s) == s
  {
    if s != [] {
      KeptPlainly(s[..|s| - 1]);
      assert s == s[..|s| - 1] + [s[|s| - 1]];
    }
  }

  /** The short name of a clean name without a dot: its first eight bytes. */
  lemma CleanShort(s: seq<byte>, i: nat)
    requires Plainly(s)
    requires i < 11
    ensures BaseShort(s)[i] == if i < 8 && i < |s| then s[i] else SPACE
  {
    hide Kept;
    KeptPlainly(s);
    assert DOT !in s;
    assert UpperAll([]) == [];
  }

  lemma CrowderClean(m: nat)
    ensures Plainly(Crowder(m)) && Plainly(Stub()) && DOT !in Crowder(m) && DOT !in Stub()
    ensures Ascii(Crowder(m)) && Ascii(Stub())
  {
    hide Digits;
  }

  lemma CrowderShort(m: nat)
    ensures BaseShort(Crowder(m)) == Base()
  {
    hide Digits, BaseShort;
    CrowderClean(m);
    forall i | 0 <= i < 11 ensures BaseShort(Crowder(m))[i] == Base()[i] {
      CleanShort(Crowder(m), i);
      CleanShort(Stub(), i);
    }
  }

  lemma BaseIs()
    ensures forall i :: 0 <= i < 11 ==> Base()[i] == if i < 8 then 0x41 else SPACE
    ensures Ascii(Base()) && TILDE !in Base()
  {
    hide BaseShort;
    CrowderClean(0);
    forall i | 0 <= i < 11 ensures Base()[i] == if i < 8 then 0x41 else SPACE {
      CleanShort(Stub(), i);
    }
  }

  lemma FourDigits()
    ensures |Digits(9999)| == 4
  {
    assert Digits(999) == Digits(99) + [0x39];
    assert Digits(99) == Digits(9) + [0x39];
  }

  lemma UsurperClean()
    ensures Plainly(Usurper()) && DOT !in Usurper() && |Usurper()| == 8 && Ascii(Usurper())
  {
    FourDigits();
    hide Digits;
  }

  /** The short name of AAA~9999 is the last candidate. */
  lemma UsurperShort()
    ensures BaseShort(Usurper()) == Candidate(Base(), MAX_TAIL)
  {
    FourDigits();
    UsurperClean();
    BaseIs();
    hide Digits, BaseShort, Base;
    var c := Candidate(Base(), MAX_TAIL);
    assert c == Base()[..3] + Tail(MAX_TAIL) + Base()[8..];
    forall i | 0 <= i < 11 ensures BaseShort(Usurper())[i] == c[i] {
      CleanShort(Usurper(), i);
    }
  }

  lemma CandidatesApart(m: nat, n: nat)
    requires m < n <= MAX_TAIL
    ensures Candidate(Base(), m) != Candidate(Base(), n)
  {
    BaseIs();
    hide Base;
    if m == 0 {
      DigitsLength(n);
      assert WithTail(Base(), n)[8 - |Tail(n)|] == TILDE;
    } else {
      CandidatesDiffer(Base(), m, n);
    }
  }

  /** A record with one candidate as its short name has no other. */
  lemma OnlyCandidate(e: NewEntry, m: nat, k: nat)
    requires m <= MAX_TAIL && k <= MAX_TAIL && e.short == Candidate(Base(), m)
    ensures SameShortName(Record(e), Candidate(Base(), k)) <==> k == m
  {
    BaseIs();
    hide Record, Digits, Base, Candidate, SameShortName;
    CandidateAscii(Base(), k);
    RecordShort(e);
    SelfShort(Record(e));
    if SameShortName(Record(e), Candidate(Base(), k)) {
      AsciiSame(Candidate(Base(), k), Record(e));
      if m < k {
        CandidatesApart(m, k);
      } else if k < m {
        CandidatesApart(k, m);
      }
    }
  }

  lemma RecordShort(e: NewEntry)
    ensures Record(e)[..11] == e.short
  {
    hide Record;
  }

  lemma PlainNormal(s: seq<byte>)
    requires Plainly(s) && s != [] && DOT !in s
    ensures Normal(s) == NormalName.Plain(LowerAll(s))
  {
    assert Trimmed(s) == s;
  }

  lemma SameAsPlain(s: seq<byte>, r: seq<byte>)
    requires Plainly(s) && s != [] && DOT !in s && Plainly(r) && r != [] && DOT !in r
    ensures Normal(s) == Normal(r) <==> LowerAll(s) == LowerAll(r)
  {
    hide Normal, LowerAll;
    PlainNormal(s);
    PlainNormal(r);
  }

  /** All these names are different. */
  lemma NamesApart(m: nat, k: nat)
    requires k != m
    ensures Normal(Crowder(k)) != Normal(Crowder(m))
    ensures Normal(Crowder(m)) != Normal(Stub())
    ensures Normal(Usurper()) != Normal(Crowder(m)) && Normal(Usurper()) != Normal(Stub())
  {
    hide Normal, Usurper, Digits, Plainly, Ascii;
    CrowderClean(m);
    CrowderClean(k);
    UsurperClean();
    UsurperThird();
    SameAsPlain(Crowder(m), Crowder(k));
    SameAsPlain(Crowder(m), Stub());
    SameAsPlain(Usurper(), Crowder(m));
    SameAsPlain(Usurper(), Stub());
    if LowerAll(Crowder(k)) == LowerAll(Crowder(m)) {
      LowerDigits(k);
      LowerDigits(m);
      DigitsInjective(k, m);
    }
    hide LowerAll;
    assert LowerAll(Usurper())[3] == TILDE && LowerAll(Stub())[3] == 0x61 && LowerAll(Crowder(m))[3] == 0x61;
    assert |LowerAll(Crowder(m))| > 8 == |LowerAll(Stub())|;
  }

  lemma UsurperThird()
    ensures |Usurper()| == 8 && Usurper()[3] == TILDE
  {
    FourDigits();
    hide Digits;
  }

  lemma LowerDigits(m: nat)
    ensures LowerAll(Crowder(m))[8..] == Digits(m)
  {
    hide Digits;
  }

  lemma SmallNames(g: Geometry, m: nat)
    requires m <= MAX_TAIL && g.sectorsPerCluster >= 1
    ensures Creatable(g, Crowder(m)) && Creatable(g, Stub()) && Creatable(g, Usurper())
  {
    CrowderClean(m);
    UsurperClean();
    DigitsLength(m);
    hide Digits;
  }

  // ----- the directory

  /**
   * Of the candidates for AAAAAAAA before the last exactly the first n are in use, and the names to
   * come are not.
   */
  ghost predicate Crowded(list: seq<Pair>, n: nat) {
    && (forall k: nat :: k < MAX_TAIL ==> (TakenShort(list, Candidate(Base(), k)) <==> k < n))
    && (forall k: nat :: n <= k < MAX_TAIL ==> !HasName(list, Crowder(k)))
    && !HasName(list, Stub())
  }

  lemma TakenMore(list: seq<Pair>, list': seq<Pair>, p: Pair, short: ShortName)
    requires OneMore(list, list', p)
    ensures TakenShort(list', short) <==> TakenShort(list, short) || SameShortName(p.record, short)
  {
    hide SameShortName, OneMore;
    var n := InsertedSomewhere(list, list', p);
    assert list'[n] == p;
    if TakenShort(list, short) {
      var i :| 0 <= i < |list| && SameShortName(list[i].record, short);
      assert list'[if i < n then i else i + 1] == list[i];
    }
  }

  lemma NameMore(list: seq<Pair>, list': seq<Pair>, p: Pair, name: seq<byte>)
    requires OneMore(list, list', p)
    ensures HasName(list', name) <==> HasName(list, name) || Normal(p.name) == Normal(name)
  {
    hide Normal, OneMore;
    var n := InsertedSomewhere(list, list', p);
    assert list'[n] == p;
    if HasName(list, name) {
      var i :| 0 <= i < |list| && Normal(list[i].name) == Normal(name);
      assert list'[if i < n then i else i + 1] == list[i];
    }
  }

  /** The next name gets the next candidate. */
  lemma NextCandidate(list: seq<Pair>, short: ShortName, n: nat)
    requires Crowded(list, n) && n < MAX_TAIL && FirstUnused(list, Base(), short)
    ensures short == Candidate(Base(), n)
  {
    hide TakenShort, Candidate, Base, HasName, Crowder;
    var k: nat :| k < MAX_TAIL && TakenBelow(list, Base(), k) && short == Candidate(Base(), k)
      && !TakenShort(list, short);
    assert !TakenShort(list, Candidate(Base(), n));
  }

  /** One name more. */
  lemma CrowdedMore(list: seq<Pair>, list': seq<Pair>, e: NewEntry, n: nat)
    requires Crowded(list, n) && n < MAX_TAIL && e.name == Crowder(n) && FirstUnused(list, BaseShort(e.name), e.short)
    requires OneMore(list, list', Pair(e.name, Record(e)))
    ensures Crowded(list', n + 1)
    ensures TakenShort(list', Candidate(Base(), MAX_TAIL)) <==> TakenShort(list, Candidate(Base(), MAX_TAIL))
  {
    hide TakenShort, Candidate, Base, BaseShort, HasName, Crowder, Normal, Record, OneMore, FirstUnused, SameShortName;
    hide Stub;
    var p := Pair(e.name, Record(e));
    CrowderShort(n);
    NextCandidate(list, e.short, n);
    forall k: nat | k <= MAX_TAIL
      ensures TakenShort(list', Candidate(Base(), k)) <==> TakenShort(list, Candidate(Base(), k)) || k == n
    {
      TakenMore(list, list', p, Candidate(Base(), k));
      OnlyCandidate(e, n, k);
    }
    forall k: nat | n + 1 <= k < MAX_TAIL ensures !HasName(list', Crowder(k)) {
      NameMore(list, list', p, Crowder(k));
      NamesApart(n, k);
    }
    NameMore(list, list', p, Stub());
    NamesApart(n, n + 1);
  }

  /** AAA~9999 takes the last candidate and nothing else. */
  lemma CrowdedBehind(list: seq<Pair>, list': seq<Pair>, e: NewEntry)
    requires Crowded(list, 0) && e.name == Usurper() && FirstUnused(list, BaseShort(e.name), e.short)
    requires !TakenShort(list, Candidate(Base(), MAX_TAIL)) && OneMore(list, list', Pair(e.name, Record(e)))
    ensures Crowded(list', 0) && TakenShort(list', Candidate(Base(), MAX_TAIL))
  {
    hide TakenShort, Base, BaseShort, HasName, Crowder, Normal, Record, OneMore, SameShortName, WithTail, Usurper;
    hide Stub;
    var p, last := Pair(e.name, Record(e)), Candidate(Base(), MAX_TAIL);
    UsurperShort();
    assert e.short == last by { FirstOne(list, last, e.short); }
    hide Candidate, FirstUnused;
    forall k: nat | k <= MAX_TAIL
      ensures TakenShort(list', Candidate(Base(), k)) <==> TakenShort(list, Candidate(Base(), k)) || k == MAX_TAIL
    {
      TakenMore(list, list', p, Candidate(Base(), k));
      OnlyCandidate(e, MAX_TAIL, k);
    }
    forall k: nat | 0 <= k < MAX_TAIL ensures !HasName(list', Crowder(k)) {
      NameMore(list, list', p, Crowder(k));
      NamesApart(k, k + 1);
    }
    NameMore(list, list', p, Stub());
    NamesApart(0, 1);
  }

  lemma FirstOne(list: seq<Pair>, base: ShortName, short: ShortName)
    requires FirstUnused(list, base, short) && !TakenShort(list, base)
    ensures short == base
  {
    hide TakenShort, WithTail;
    var n: nat :| n < MAX_TAIL && TakenBelow(list, base, n) && short == Candidate(base, n) && !TakenShort(list, short);
    assert Candidate(base, 0) == base;
  }

  lemma CrowdStarts(list: seq<Pair>)
    requires list == []
    ensures Crowded(list, 0) && !TakenShort(list, Candidate(Base(), MAX_TAIL)) && !HasName(list, Usurper())
  {
    hide Candidate, Base, Crowder, Normal, SameShortName, Stub, Usurper;
  }

  /** In the end the candidates before the last are all in use. */
  lemma CrowdDone(list: seq<Pair>)
    requires Crowded(list, MAX_TAIL)
    ensures TakenBelow(list, Base(), MAX_TAIL) && !HasName(list, Stub())
  {
    hide TakenShort, Candidate, Base, HasName, Crowder;
  }

  // ----- the runs

  /** The calls from one state to another. */
  datatype Log = Log(vs: seq<Volume>, ts: seq<Tree>, acts: seq<Action>)

  ghost predicate Logged(g: Geometry, h: Log, v: Volume, t: Tree, w: Volume, t': Tree) {
    && History(g, h.vs, h.ts, h.acts)
    && h.vs[0] == v && h.ts[0] == t && h.vs[|h.acts|] == w && h.ts[|h.acts|] == t'
  }

  lemma LoggedNothing(g: Geometry, v: Volume, t: Tree)
    ensures Logged(g, Log([v], [t], []), v, t, v, t) && Losses([]) == 0
  {
  }

  lemma LoggedMore(g: Geometry, h: Log, v0: Volume, t0: Tree, v: Volume, t: Tree, w: Volume, t': Tree, a: Action)
    returns (h': Log)
    requires Logged(g, h, v0, t0, v, t) && Act(g, v, t, w, t', a)
    ensures Logged(g, h', v0, t0, w, t') && h'.acts == h.acts + [a] && Losses(h'.acts) == Losses(h.acts) + Loss(a)
  {
    hide Act;
    h' := Log(h.vs + [w], h.ts + [t'], h.acts + [a]);
    HistoryMore(g, h.vs, h.ts, h.acts, w, t', a);
  }

  /** The directory, with the clusters for n entries to come. */
  ghost predicate Site(fs: FatFs, t: Tree, d: u32, n: nat)
    reads fs, fs.table, fs.disk
  {
    Ready(fs, t) && d in t.list && Stock(fs.geo, fs.State().T, 2 * n)
  }

  /** What stands in the way of a creation in such a place. */
  lemma SiteFor(fs: FatFs, t: Tree, d: u32, n: nat, name: seq<byte>)
    requires Site(fs, t, d, n) && n >= 1 && name != [] && SomeLeft(t.list[d], name)
    requires fs.geo.sectorsPerCluster >= 1 ==> Creatable(fs.geo, name)
    ensures MayCreate(fs, t, d, name) && Free(fs.geo, fs.State().T) != []
    ensures Refused(fs.geo, fs.State(), t, d, name) <==>
            HasName(t.list[d], name) || TakenBelow(t.list[d], BaseShort(name), MAX_TAIL)
  {
    hide FatFs.Valid, Inv, CurAt, HasName, TakenBelow, Free, BaseShort, EntriesRequired, HasRoom, DirSlots, Creatable;
    hide SomeLeft;
    Ordered(fs.geo, fs.State(), t);
    NamesOf(fs.geo, fs.State(), t, d);
  }

  /** After a creation one entry less may come. */
  lemma SiteAfter(fs: FatFs, v: Volume, t: Tree, t': Tree, d: u32, n: nat, e: NewEntry)
    requires Created(fs.geo, v, t, fs.State(), t', d, e) && Ready(fs, t') && Stock(fs.geo, v.T, 2 * (n + 1))
    ensures Site(fs, t', d, n) && d in t.list && OneMore(t.list[d], t'.list[d], Pair(e.name, Record(e)))
    ensures FirstUnused(t.list[d], BaseShort(e.name), e.short)
  {
    hide Ready, OneMore, Record, OthersKept, HasName, TakenBelow, BaseShort, Free, FirstUnused, FatFs.State, HasRoom;
    hide DirSlots, EntriesRequired;
    var k := 1 + |t'.chains[d]| - |t.chains[d]|;
    var F, F' := Free(fs.geo, v.T), Free(fs.geo, fs.State().T);
    assert F' == F[k..];
    forall i | 0 <= i < 2 * n && i < |F'| ensures F'[i] < fs.geo.Limit() {
      assert F'[i] == F[k + i];
    }
  }

  lemma MadeParts(g: Geometry, v: Volume, t: Tree, w: Volume, t': Tree, a: Action)
    requires Act(g, v, t, w, t', a) && a.Make?
    ensures Created(g, v, t, w, t', a.d, a.entry)
  {
    hide Created, Reaches;
  }

  lemma CrowderFits(list: seq<Pair>, m: nat)
    requires Crowded(list, m) && m < MAX_TAIL
    ensures SomeLeft(list, Crowder(m)) && !HasName(list, Crowder(m)) && Crowder(m) != []
    ensures !TakenBelow(list, BaseShort(Crowder(m)), MAX_TAIL)
  {
    hide TakenShort, Candidate, Base, BaseShort, HasName;
    CrowderShort(m);
    assert !TakenShort(list, Candidate(Base(), m));
  }

  /** Create the m-th name. */
  method AddCrowder(fs: FatFs, d: u32, m: nat, ghost n: nat, ghost t: Tree, ghost h: Log, ghost v0: Volume,
      ghost t0: Tree)
    returns (ghost t': Tree, ghost h': Log)
    requires Site(fs, t, d, n + 1) && Crowded(t.list[d], m) && m < MAX_TAIL
    requires Logged(fs.geo, h, v0, t0, fs.State(), t)
    modifies fs, fs.table, fs.disk
    ensures Site(fs, t', d, n) && Crowded(t'.list[d], m + 1) && d in t.list
    ensures TakenShort(t'.list[d], Candidate(Base(), MAX_TAIL)) <==> TakenShort(t.list[d], Candidate(Base(), MAX_TAIL))
    ensures Logged(fs.geo, h', v0, t0, fs.State(), t')
    ensures |h'.acts| == |h.acts| + 1 && Losses(h'.acts) == Losses(h.acts)
  {
    hide *;
    ghost var g, v := fs.geo, fs.State();
    SiteParts(fs, t, d, n + 1);
    CrowderFits(t.list[d], m);
    CrowderCreatable(g, m);
    SiteFor(fs, t, d, n + 1, Crowder(m));
    var ok;
    ghost var a;
    ok, t', a := CallCreateFile(fs, d, Crowder(m), t);
    MadeParts(g, v, t, fs.State(), t', a);
    SiteAfter(fs, v, t, t', d, n, a.entry);
    SiteParts(fs, t', d, n);
    CrowdedMore(t.list[d], t'.list[d], a.entry, m);
    h' := LoggedMore(g, h, v0, t0, v, t, fs.State(), t', a);
    MakeLoses(a);
  }

  lemma MakeLoses(a: Action)
    requires a.Make?
    ensures Loss(a) == 0
  {
  }

  lemma CrowderCreatable(g: Geometry, m: nat)
    requires m < MAX_TAIL
    ensures g.sectorsPerCluster >= 1 ==> Creatable(g, Crowder(m))
  {
    if g.sectorsPerCluster >= 1 {
      SmallNames(g, m);
    }
  }

  lemma SiteParts(fs: FatFs, t: Tree, d: u32, n: nat)
    requires Site(fs, t, d, n)
    ensures Ready(fs, t) && d in t.list && Stock(fs.geo, fs.State().T, 2 * n)
  {
  }

  lemma LastTail()
    ensures MAX_TAIL == 9999
  {
  }

  /** Create 9999 names, with clusters for n entries more. */
  method FillNames(fs: FatFs, d: u32, ghost n: nat, ghost t: Tree, ghost h: Log, ghost v0: Volume, ghost t0: Tree)
    returns (ghost t': Tree, ghost h': Log)
    requires Site(fs, t, d, MAX_TAIL + n) && Crowded(t.list[d], 0) && Logged(fs.geo, h, v0, t0, fs.State(), t)
    modifies fs, fs.table, fs.disk
    ensures Site(fs, t', d, n) && Crowded(t'.list[d], MAX_TAIL) && d in t.list
    ensures TakenShort(t'.list[d], Candidate(Base(), MAX_TAIL)) <==> TakenShort(t.list[d], Candidate(Base(), MAX_TAIL))
    ensures Logged(fs.geo, h', v0, t0, fs.State(), t')
    ensures |h'.acts| == |h.acts| + MAX_TAIL && Losses(h'.acts) == Losses(h.acts)
  {
    hide *;
    LastTail();
    SiteParts(fs, t, d, MAX_TAIL + n);
    t', h' := t, h;
    for m := 0 to MAX_TAIL
      invariant Site(fs, t', d, MAX_TAIL - m + n) && d in t'.list && Crowded(t'.list[d], m)
      invariant TakenShort(t'.list[d], Candidate(Base(), MAX_TAIL)) <==>
                TakenShort(t.list[d], Candidate(Base(), MAX_TAIL))
      invariant Logged(fs.geo, h', v0, t0, fs.State(), t')
      invariant |h'.acts| == |h.acts| + m && Losses(h'.acts) == Losses(h.acts)
    {
      t', h' := AddCrowder(fs, d, m, MAX_TAIL - m - 1 + n, t', h', v0, t0);
      SiteParts(fs, t', d, MAX_TAIL - m - 1 + n);
    }
  }

  /** In a directory without these names: 9999 files, and then a directory AAAAAAAA, which loses a cluster. */
  method LoseCluster(fs: FatFs, d: u32, ghost t: Tree)
    returns (ok: bool, ghost t1: Tree, ghost t': Tree, ghost h: Log)
    requires Site(fs, t, d, MAX_TAIL + 1) && Crowded(t.list[d], 0)
    requires !TakenShort(t.list[d], Candidate(Base(), MAX_TAIL))
    modifies fs, fs.table, fs.disk
    ensures !ok && Ready(fs, t') && Leaked(t1, t')
    ensures Logged(fs.geo, h, old(fs.State()), t, fs.State(), t')
    ensures |h.acts| == MAX_TAIL + 1 && h.acts[MAX_TAIL] == Lose && Losses(h.acts) == 1
  {
    hide *;
    LastTail();
    ghost var g, v0 := fs.geo, fs.State();
    LoggedNothing(g, v0, t);
    h := Log([v0], [t], []);
    t1, h := FillNames(fs, d, 1, t, h, v0, t);
    ghost var v := fs.State();
    SiteParts(fs, t1, d, 1);
    CrowdDone(t1.list[d]);
    StubFits(g, t1.list[d]);
    SiteFor(fs, t1, d, 1, Stub());
    ghost var a;
    ok, t', a := CallCreateDir(fs, d, Stub(), t1);
    h := LoggedMore(g, h, v0, t, v, t1, fs.State(), t', a);
    LoseParts(g, v, t1, fs.State(), t', a);
  }

  lemma StubFits(g: Geometry, list: seq<Pair>)
    requires !TakenShort(list, Candidate(Base(), MAX_TAIL))
    ensures SomeLeft(list, Stub()) && Stub() != [] && Base() == BaseShort(Stub())
    ensures g.sectorsPerCluster >= 1 ==> Creatable(g, Stub())
  {
    hide TakenShort, TakenBelow, Candidate;
    CrowderCreatable(g, 0);
    if g.sectorsPerCluster >= 1 {
      SmallNames(g, 0);
    }
  }

  lemma LoseParts(g: Geometry, v: Volume, t: Tree, w: Volume, t': Tree, a: Action)
    requires Act(g, v, t, w, t', a) && a.Lose?
    ensures Leaked(t, t') && Loss(a) == 1
  {
    hide Leaked, Reaches, AllKept;
  }

  lemma UsurperFits(fs: FatFs, list: seq<Pair>)
    requires !TakenShort(list, Candidate(Base(), MAX_TAIL))
    ensures !TakenBelow(list, BaseShort(Usurper()), MAX_TAIL) && SomeLeft(list, Usurper()) && Usurper() != []
    ensures fs.geo.sectorsPerCluster >= 1 ==> Creatable(fs.geo, Usurper())
  {
    hide TakenShort, Base, BaseShort, Usurper;
    UsurperShort();
    var last := Candidate(Base(), MAX_TAIL);
    assert Candidate(last, 0) == last;
    assert !TakenShort(list, Candidate(last, 0));
    hide Candidate;
    if fs.geo.sectorsPerCluster >= 1 {
      SmallNames(fs.geo, 0);
    }
    UsurperSome();
  }

  lemma UsurperSome()
    ensures Usurper() != []
  {
    UsurperClean();
    hide Usurper;
  }

  /** Create AAA~9999. */
  method AddUsurper(fs: FatFs, d: u32, ghost n: nat, ghost t: Tree, ghost h: Log)
    returns (ghost t': Tree, ghost h': Log)
    requires Site(fs, t, d, n + 1) && Crowded(t.list[d], 0) && !HasName(t.list[d], Usurper())
    requires !TakenShort(t.list[d], Candidate(Base(), MAX_TAIL)) && Logged(fs.geo, h, fs.State(), t, fs.State(), t)
    modifies fs, fs.table, fs.disk
    ensures Site(fs, t', d, n) && Crowded(t'.list[d], 0) && TakenShort(t'.list[d], Candidate(Base(), MAX_TAIL))
    ensures Logged(fs.geo, h', old(fs.State()), t, fs.State(), t')
    ensures |h'.acts| == |h.acts| + 1 && Losses(h'.acts) == Losses(h.acts)
  {
    hide *;
    ghost var g, v := fs.geo, fs.State();
    SiteParts(fs, t, d, n + 1);
    UsurperFits(fs, t.list[d]);
    SiteFor(fs, t, d, n + 1, Usurper());
    var ok;
    ghost var a;
    ok, t', a := CallCreateFile(fs, d, Usurper(), t);
    MadeParts(g, v, t, fs.State(), t', a);
    SiteAfter(fs, v, t, t', d, n, a.entry);
    SiteParts(fs, t', d, n);
    CrowdedBehind(t.list[d], t'.list[d], a.entry);
    h' := LoggedMore(g, h, v, t, v, t, fs.State(), t', a);
    MakeLoses(a);
  }

  /** In such a directory, with AAA~9999 before the 9999 files: the search for a short name ends on one in use. */
  method GiveAway(fs: FatFs, d: u32, ghost t: Tree) returns (ok: bool, short: ShortName, ghost t': Tree, ghost h: Log)
    requires Site(fs, t, d, MAX_TAIL + 2) && Crowded(t.list[d], 0) && !HasName(t.list[d], Usurper())
    requires !TakenShort(t.list[d], Candidate(Base(), MAX_TAIL))
    modifies fs, fs.table, fs.disk
    ensures Ready(fs, t') && d in t'.list && !HasName(t'.list[d], Stub())
    ensures ok && TakenShort(t'.list[d], short)
    ensures Logged(fs.geo, h, old(fs.State()), t, fs.State(), t') && |h.acts| == MAX_TAIL + 1 && Losses(h.acts) == 0
  {
    hide *;
    LastTail();
    ghost var g, v0 := fs.geo, fs.State();
    LoggedNothing(g, v0, t);
    h := Log([v0], [t], []);
    ghost var t1, n;
    SiteParts(fs, t, d, MAX_TAIL + 2);
    t1, h := AddUsurper(fs, d, MAX_TAIL + 1, t, h);
    SiteParts(fs, t1, d, MAX_TAIL + 1);
    t', h := FillNames(fs, d, 1, t1, h, v0, t);
    SiteParts(fs, t', d, 1);
    CrowdDone(t'.list[d]);
    StubReady(fs, t');
    ok, short, n := PickShort(fs, d, Stub(), t');
    LastCandidate(t'.list[d], BaseShort(Stub()), ok, short, n);
  }

  lemma StubReady(fs: FatFs, t: Tree)
    requires Ready(fs, t)
    ensures Creatable(fs.geo, Stub()) && Base() == BaseShort(Stub())
  {
    hide Inv, CurAt, FatFs.Valid, Creatable;
    Ordered(fs.geo, fs.State(), t);
    SmallNames(fs.geo, 0);
  }

  // ----- on a fresh volume

  /** The root directory of a freshly formatted volume has none of these names, and there are clusters enough. */
  lemma FreshSite(fs: FatFs, total: u32)
    requires Ready(fs, FreshTree()) && total > 4194304 && fs.geo == Geometry32(total)
    ensures Site(fs, FreshTree(), 2, MAX_TAIL + 2) && Crowded(FreshTree().list[2], 0)
    ensures !TakenShort(FreshTree().list[2], Candidate(Base(), MAX_TAIL)) && !HasName(FreshTree().list[2], Usurper())
  {
    hide Inv, CurAt, FatFs.Valid, FatFs.State, Candidate, Base, Crowded, TakenShort, HasName, Usurper;
    hide Geometry.Ok;
    Geometry32Ok(total);
    RootOf(total);
    hide Geometry32;
    assert fs.geo.Limit() <= |fs.State().T| by { TableFits(fs); }
    FreshStock(fs.geo, fs.State(), 2 * (MAX_TAIL + 2));
    assert FreshTree().list[2] == [];
    CrowdStarts(FreshTree().list[2]);
  }

  lemma RootOf(total: u32)
    requires total > 4194304
    ensures Geometry32(total).rootCluster == 2
  {
  }

  lemma SiteLess(fs: FatFs, t: Tree, d: u32, n: nat)
    requires Site(fs, t, d, n + 1)
    ensures Site(fs, t, d, n)
  {
    hide Ready, FatFs.State, Free;
  }

  /** From a freshly formatted volume on: ten thousand calls, of which the last loses a cluster. */
  method LoseFresh(disk: Disk, total: u32, volumeName: seq<byte>)
    returns (fs: FatFs, ok: bool, ghost before: seq<Sector>, ghost t1: Tree, ghost t': Tree, ghost h: Log)
    requires disk.reliable && 4194304 < total <= |disk.sectors| < 0x1_0000_0000
    modifies disk
    ensures Formatted32(before, Parameters32(total)) && total <= |before|
    ensures fs.geo == Geometry32(total) && fs.geo.Ok() && fs.geo.clusterBegin <= |before|
    ensures !ok && Ready(fs, t') && Leaked(t1, t')
    ensures Logged(fs.geo, h, OnSectors(fs.geo, before), FreshTree(), fs.State(), t')
    ensures |h.acts| == MAX_TAIL + 1 && h.acts[MAX_TAIL] == Lose && Losses(h.acts) == 1
  {
    hide *;
    LastTail();
    fs := FreshFileSystem(disk, total, volumeName, 1);
    before := disk.sectors;
    FreshSite(fs, total);
    SiteLess(fs, FreshTree(), 2, MAX_TAIL + 1);
    SiteParts(fs, FreshTree(), 2, MAX_TAIL + 1);
    ok, t1, t', h := LoseCluster(fs, 2, FreshTree());
  }

  /** From a freshly formatted volume on: ten thousand files, and then a short name that is given out twice. */
  method GiveFresh(disk: Disk, total: u32, volumeName: seq<byte>)
    returns (fs: FatFs, ok: bool, short: ShortName, ghost before: seq<Sector>, ghost t': Tree, ghost h: Log)
    requires disk.reliable && 4194304 < total <= |disk.sectors| < 0x1_0000_0000
    modifies disk
    ensures Formatted32(before, Parameters32(total)) && total <= |before|
    ensures fs.geo == Geometry32(total) && fs.geo.Ok() && fs.geo.clusterBegin <= |before|
    ensures Ready(fs, t') && 2 in t'.list && !HasName(t'.list[2], Stub()) && ok && TakenShort(t'.list[2], short)
    ensures Logged(fs.geo, h, OnSectors(fs.geo, before), FreshTree(), fs.State(), t') && Losses(h.acts) == 0
  {
    hide *;
    LastTail();
    fs := FreshFileSystem(disk, total, volumeName, 1);
    before := disk.sectors;
    FreshSite(fs, total);
    SiteParts(fs, FreshTree(), 2, MAX_TAIL + 2);
    ok, short, t', h := GiveAway(fs, 2, FreshTree());
  }
}
