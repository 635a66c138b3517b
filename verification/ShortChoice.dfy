/** The choice of a short name that no entry of the directory has. */
module ShortChoice {
  import opened Words
  import opened Contents
  import opened FatStrings
  import opened Directories
  import opened ShortNames
  import opened Access
  import opened DirScan
  import opened Listings

  const MAX_TAIL := 9999

  ghost predicate TakenBelow(list: seq<Pair>, base: ShortName, n: nat) {
    forall m: nat :: m < n && m <= MAX_TAIL ==> TakenShort(list, Candidate(base, m))
  }

  /** What the search leaves behind: it stopped at number n, or ran past the last one. */
  ghost predicate Chosen(list: seq<Pair>, base: ShortName, ok: bool, short: ShortName, n: nat) {
    && n <= MAX_TAIL && TakenBelow(list, base, n) && short == Candidate(base, n)
    && (n < MAX_TAIL ==> !TakenShort(list, short))
    && (ok <==> n < MAX_TAIL || TakenShort(list, short))
  }

  /** The choice is made and nobody has the name, exactly if one of the first 9999 candidates is unused. */
  lemma ChosenFresh(list: seq<Pair>, base: ShortName, ok: bool, short: ShortName, n: nat)
    requires Chosen(list, base, ok, short, n)
    ensures ok && !TakenShort(list, short) <==> !TakenBelow(list, base, MAX_TAIL)
  {
    hide TakenShort, Candidate;
  }

  /** The first candidate that no entry of the directory has. */
  ghost predicate FirstUnused(list: seq<Pair>, base: ShortName, short: ShortName) {
    exists n: nat :: n < MAX_TAIL && TakenBelow(list, base, n) && short == Candidate(base, n)
      && !TakenShort(list, short)
  }

  lemma ChosenFirst(list: seq<Pair>, base: ShortName, ok: bool, short: ShortName, n: nat)
    requires Chosen(list, base, ok, short, n) && ok && !TakenShort(list, short)
    ensures FirstUnused(list, base, short)
  {
    hide TakenShort, Candidate, TakenBelow;
  }

  /** The last number is never given out: unused, it is refused; used, it is given out all the same. */
  lemma LastCandidate(list: seq<Pair>, base: ShortName, ok: bool, short: ShortName, n: nat)
    requires Chosen(list, base, ok, short, n) && TakenBelow(list, base, MAX_TAIL)
    ensures short == Candidate(base, MAX_TAIL) && (ok <==> TakenShort(list, short))
  {
    hide TakenShort, Candidate;
  }

  /** A directory of fewer than 9998 entries always leaves a candidate. */
  lemma FewEntries(list: seq<Pair>, base: ShortName)
    requires Ascii(base) && TakenBelow(list, base, MAX_TAIL)
    ensures |list| >= MAX_TAIL - 1
  {
    hide TakenShort, Candidate, Ascii;
    var places := Places(list, base, MAX_TAIL - 1);
    DistinctBelow(places, |list|);
  }

  /** Where the candidates 1 .. n stand on the list: at n different places. */
  lemma Places(list: seq<Pair>, base: ShortName, n: nat) returns (places: seq<nat>)
    requires n < MAX_TAIL && Ascii(base) && TakenBelow(list, base, MAX_TAIL)
    ensures |places| == n
    ensures forall i :: 0 <= i < n ==> places[i] < |list| && list[places[i]].record[..11] == Candidate(base, i + 1)
    ensures forall i, j :: 0 <= i < j < n ==> places[i] != places[j]
  {
    hide Candidate, Ascii, SameShortName;
    places := [];
    if n > 0 {
      places := Places(list, base, n - 1);
      assert TakenShort(list, Candidate(base, n));
      var p: nat :| p < |list| && SameShortName(list[p].record, Candidate(base, n));
      CandidateAscii(base, n);
      AsciiSame(Candidate(base, n), list[p].record);
      forall i | 0 <= i < n - 1 ensures places[i] != p {
        CandidatesDiffer(base, i + 1, n);
      }
      places := places + [p];
    }
  }

  lemma CandidatesDiffer(base: ShortName, m: nat, n: nat)
    requires 1 <= m < n <= MAX_TAIL
    ensures Candidate(base, m) != Candidate(base, n)
  {
    if Candidate(base, m) == Candidate(base, n) {
      TailsDiffer(base, m, n);
    }
  }

  lemma DistinctBelow(places: seq<nat>, n: nat)
    requires forall i :: 0 <= i < |places| ==> places[i] < n
    requires forall i, j :: 0 <= i < j < |places| ==> places[i] != places[j]
    ensures |places| <= n
    decreases n
  {
    assert places != [] ==> places[0] < n;
    if places != [] {
      var rest := WithoutTop(places, n - 1);
      DistinctBelow(rest, n - 1);
    }
  }

  /** The places without the given one. */
  lemma WithoutTop(places: seq<nat>, x: nat) returns (rest: seq<nat>)
    requires forall i :: 0 <= i < |places| ==> places[i] <= x
    requires forall i, j :: 0 <= i < j < |places| ==> places[i] != places[j]
    ensures |rest| >= |places| - 1
    ensures forall i :: 0 <= i < |rest| ==> rest[i] < x
    ensures forall i, j :: 0 <= i < j < |rest| ==> rest[i] != rest[j]
  {
    if x in places {
      var k :| 0 <= k < |places| && places[k] == x;
      rest := places[..k] + places[k + 1..];
    } else {
      rest := places;
    }
  }

  lemma TakenOne(list: seq<Pair>, base: ShortName, n: nat)
    requires n <= MAX_TAIL && TakenBelow(list, base, n) && TakenShort(list, Candidate(base, n))
    ensures TakenBelow(list, base, n + 1)
  {
    hide TakenShort, Candidate;
  }

  lemma ChosenBy(list: seq<Pair>, base: ShortName, found: bool, tailNum: nat, short: ShortName, n: nat)
    requires n <= MAX_TAIL && TakenBelow(list, base, n) && short == Candidate(base, n)
    requires found <==> TakenShort(list, short)
    requires if found then n == MAX_TAIL && tailNum == MAX_TAIL + 1 else tailNum == n
    ensures Chosen(list, base, tailNum != MAX_TAIL, short, n)
  {
    hide TakenShort, Candidate, TakenBelow;
  }

  lemma BaseCandidate(base: ShortName, list: seq<Pair>)
    ensures Candidate(base, 0) == base && TakenBelow(list, base, 0)
  {
  }

  /** The search in _fs_create_file and _fs_create_dir; a name with a leading dot is not handled there. */
  method ChooseShort(fs: FatFs, dirCluster: u32, name: seq<byte>, ghost v: Volume, ghost dir: seq<u32>,
      ghost list: seq<Pair>)
    returns (ok: bool, short: ShortName, ghost n: nat)
    requires fs.Valid() && fs.State() == v && DirChain(fs.geo, v.T, dirCluster, dir)
    requires list == Listing(DirSlots(fs.geo, v.data, dir))
    requires CString(name) && (name == [] || name[0] != DOT)
    modifies fs, fs.table, fs.disk
    ensures fs.Valid() && fs.State() == v
    ensures Chosen(list, BaseShort(name), ok, short, n)
    ensures fs.curAddress == old(fs.curAddress) || fs.CurrentIn(dir)
  {
    hide FatFs.Valid, FatFs.State, FatFs.CurrentIn, DirChain, DirSlots, Listing, Chosen, Candidate, TakenBelow;
    hide TakenShort, BaseShort;
    var _, base := CreateShort(name);
    BaseCandidate(base, list);
    short, n := base, 0;
    var tailNum := 0;
    var found := ShortTaken(fs, dirCluster, short, v, dir, list);
    while found
      invariant fs.Valid() && fs.State() == v
      invariant fs.curAddress == old(fs.curAddress) || fs.CurrentIn(dir)
      invariant n <= MAX_TAIL && TakenBelow(list, base, n) && short == Candidate(base, n)
      invariant found <==> TakenShort(list, short)
      invariant tailNum == n
      decreases MAX_TAIL - tailNum
    {
      tailNum := tailNum + 1;
      if tailNum > MAX_TAIL {
        break;
      }
      var _, tmp := CreateShort(name);
      TakenOne(list, base, n);
      short := NextShort(tmp, tailNum);
      n := n + 1;
      found := ShortTaken(fs, dirCluster, short, v, dir, list);
    }
    ok := tailNum != MAX_TAIL;
    ChosenBy(list, base, found, tailNum, short, n);
  }

  method NextShort(base: ShortName, tailNum: nat) returns (short: ShortName)
    requires 1 <= tailNum <= MAX_TAIL
    ensures short == Candidate(base, tailNum)
  {
    var ok;
    ok, short := GenerateTail(base, tailNum);
  }

  /** fatfs_sfn_exists, on the list. */
  method ShortTaken(fs: FatFs, dirCluster: u32, short: ShortName, ghost v: Volume, ghost dir: seq<u32>,
      ghost list: seq<Pair>)
    returns (found: bool)
    requires fs.Valid() && fs.State() == v && DirChain(fs.geo, v.T, dirCluster, dir)
    requires list == Listing(DirSlots(fs.geo, v.data, dir))
    modifies fs, fs.table, fs.disk
    ensures fs.Valid() && fs.State() == v
    ensures found <==> TakenShort(list, short)
    ensures fs.curAddress == old(fs.curAddress) || fs.CurrentIn(dir)
  {
    hide FatFs.Valid, FatFs.CurrentIn, DirChain, DirSlots, Listing, NoShort, TakenShort;
    TakenOnList(DirSlots(fs.geo, v.data, dir), short);
    found := ShortNameExists(fs, dirCluster, short, dir);
  }
}
