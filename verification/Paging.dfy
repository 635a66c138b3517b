/** Page directories and page tables, some of them shared: kernel/memory/paging.c. */
module Paging {
  import opened Words
  import opened PhysicalMemory

  const PAGE_SIZE := 0x1000
  const ENTRIES := 1024
  const INVALID_FRAME := 0xFFFFF

  datatype Page = Page(present: bool, rw: bool, user: bool, frame: nat)

  function BlankPages(): (r: seq<Page>)
    ensures |r| == ENTRIES && forall i :: 0 <= i < ENTRIES ==> r[i] == Page(false, false, false, INVALID_FRAME)
  {
    seq(ENTRIES, _ => Page(false, false, false, INVALID_FRAME))
  }

  class PageTable {
    var pages: seq<Page>

    constructor ()
      ensures pages == BlankPages()
    {
      pages := BlankPages();
    }
  }

  class PageDirectory {
    var tables: seq<PageTable?>

    constructor ()
      ensures |tables| == ENTRIES && forall i :: 0 <= i < ENTRIES ==> tables[i] == null
    {
      tables := seq(ENTRIES, _ => null);
    }
  }

  function TableIndex(vaddr: u32): (i: nat)
    ensures i < ENTRIES
  {
    vaddr / PAGE_SIZE / ENTRIES
  }

  function EntryIndex(vaddr: u32): (i: nat)
    ensures i < ENTRIES
  {
    vaddr / PAGE_SIZE % ENTRIES
  }

  /** What a page entry makes of an address. */
  function Physical(p: Page, vaddr: u32): int {
    if p.present then p.frame * PAGE_SIZE + vaddr % PAGE_SIZE else 0xFFFF_FFFF
  }

  /** An address is ten bits of table, ten of entry and twelve inside the page. */
  lemma AddressParts(t: nat, e: nat, offset: nat, p: Page)
    requires t < 1024 && e < 1024 && offset < 0x1000
    ensures var vaddr := t * 0x40_0000 + e * 0x1000 + offset;
      && vaddr < 0x1_0000_0000 && TableIndex(vaddr) == t && EntryIndex(vaddr) == e
      && Physical(p, vaddr) == if p.present then p.frame * 0x1000 + offset else 0xFFFF_FFFF
  {
    var vaddr := t * 0x40_0000 + e * 0x1000 + offset;
    assert vaddr / 0x1000 == t * 1024 + e && vaddr % 0x1000 == offset;
  }

  // ----- the state: what the directories and tables hold, and which frames are marked

  type Tables = map<PageDirectory, seq<PageTable?>>
  type Pages = map<PageTable, seq<Page>>

  datatype Memory = Memory(tables: Tables, pages: Pages, marked: set<nat>)

  /** Entry i of table t is present and names the frame. */
  predicate Holds(pages: Pages, t: PageTable, i: nat, frame: nat) {
    t in pages && i < |pages[t]| && pages[t][i].present && pages[t][i].frame == frame
  }

  /** No frame stands in two present entries, a shared table counted once, and each is marked. */
  ghost predicate OwnedOnce(pages: Pages, marked: set<nat>) {
    && (forall t :: t in pages ==> |pages[t]| == ENTRIES)
    && (forall t, i: nat, f :: t in pages && Holds(pages, t, i, f) ==> f in marked)
    && (forall t, i: nat, u, j: nat, f :: t in pages && u in pages && Holds(pages, t, i, f) && Holds(pages, u, j, f) ==>
            t == u && i == j)
  }

  /** The table of directory d at place i, if it has one. */
  function TableAt(tables: Tables, d: PageDirectory, i: nat): PageTable? {
    if d in tables && i < |tables[d]| then tables[d][i] else null
  }

  /** Directories hold known tables; two directories share a table only where the kernel directory has it too. */
  ghost predicate Shared(tables: Tables, pages: Pages, kdir: PageDirectory) {
    && kdir in tables
    && (forall d :: d in tables ==> |tables[d]| == ENTRIES)
    && (forall d, i: nat :: d in tables && TableAt(tables, d, i) != null ==> TableAt(tables, d, i) in pages)
    && (forall d, i: nat, e, j: nat ::
          d in tables && e in tables &&
          TableAt(tables, d, i) != null && TableAt(tables, d, i) == TableAt(tables, e, j) ==>
          i == j && (d == e || TableAt(tables, kdir, i) == TableAt(tables, d, i)))
  }

  ghost predicate InOrder(m: Memory, kdir: PageDirectory) {
    OwnedOnce(m.pages, m.marked) && Shared(m.tables, m.pages, kdir)
  }

  /** The page entry of an address, if its directory has a table for it. */
  function PageAt(m: Memory, d: PageDirectory, vaddr: u32): Page {
    var t := TableAt(m.tables, d, TableIndex(vaddr));
    if t != null && t in m.pages && EntryIndex(vaddr) < |m.pages[t]| then m.pages[t][EntryIndex(vaddr)]
    else Page(false, false, false, INVALID_FRAME)
  }

  /** What vmm_get_phys_addr answers. */
  function Translate(m: Memory, d: PageDirectory, vaddr: u32): int { Physical(PageAt(m, d, vaddr), vaddr) }

  // ----- the two changes

  /** Directory d gets a blank table for the address, if it had none. */
  ghost predicate WithTable(m: Memory, m': Memory, d: PageDirectory, vaddr: u32) {
    var i := TableIndex(vaddr);
    && d in m.tables && i < |m.tables[d]| && m'.marked == m.marked && TableAt(m'.tables, d, i) != null
    && if TableAt(m.tables, d, i) != null then m'.tables == m.tables && m'.pages == m.pages
       else
         var t := TableAt(m'.tables, d, i);
         t !in m.pages && m'.tables == m.tables[d := m.tables[d][i := t]] && m'.pages == m.pages[t := BlankPages()]
  }

  lemma WithTableKeeps(m: Memory, m': Memory, kdir: PageDirectory, d: PageDirectory, vaddr: u32)
    requires InOrder(m, kdir) && WithTable(m, m', d, vaddr)
    ensures InOrder(m', kdir)
    ensures forall e, v: u32 :: e in m.tables ==> PageAt(m', e, v) == PageAt(m, e, v)
  {
    var i := TableIndex(vaddr);
    var t := TableAt(m'.tables, d, i);
    if TableAt(m.tables, d, i) == null {
      forall e, j: nat | e in m.tables
        ensures TableAt(m'.tables, e, j) == if e == d && j == i then t else TableAt(m.tables, e, j)
      {
      }
      forall u, j: nat, f | u in m'.pages && Holds(m'.pages, u, j, f) ensures Holds(m.pages, u, j, f) {
      }
    }
  }

  /** The entry of the address becomes p. */
  ghost predicate WithPage(m: Memory, m': Memory, d: PageDirectory, vaddr: u32, p: Page) {
    var t := TableAt(m.tables, d, TableIndex(vaddr));
    && t != null && t in m.pages && EntryIndex(vaddr) < |m.pages[t]|
    && m'.tables == m.tables && m'.pages == m.pages[t := m.pages[t][EntryIndex(vaddr) := p]]
  }

  /** The frame that a new present entry names was not marked; one that is no longer named is unmarked. */
  ghost predicate FrameMoved(m: Memory, m': Memory, d: PageDirectory, vaddr: u32, p: Page) {
    if p.present then p.frame !in m.marked && m'.marked == m.marked + {p.frame}
    else PageAt(m, d, vaddr).present && m'.marked == m.marked - {PageAt(m, d, vaddr).frame}
  }

  lemma WithPageKeeps(m: Memory, m': Memory, kdir: PageDirectory, d: PageDirectory, vaddr: u32, p: Page)
    requires InOrder(m, kdir) && WithPage(m, m', d, vaddr, p) && FrameMoved(m, m', d, vaddr, p)
    ensures InOrder(m', kdir)
  {
    var t, k := TableAt(m.tables, d, TableIndex(vaddr)), EntryIndex(vaddr);
    forall u, j: nat, f | u in m'.pages && Holds(m'.pages, u, j, f)
      ensures (u == t && j == k && p.present && f == p.frame) || (!(u == t && j == k) && Holds(m.pages, u, j, f))
    {
    }
    forall u, j: nat, f | u in m'.pages && Holds(m'.pages, u, j, f) ensures f in m'.marked {
      if !p.present {
        assert Holds(m.pages, t, k, m.pages[t][k].frame);
      }
    }
  }

  /** Two directories meet at an address if both have the same table for it. */
  predicate Meet(m: Memory, d: PageDirectory, e: PageDirectory, vaddr: u32) {
    && TableAt(m.tables, d, TableIndex(vaddr)) != null
    && TableAt(m.tables, d, TableIndex(vaddr)) == TableAt(m.tables, e, TableIndex(vaddr))
  }

  /** A change of one entry shows at the address's page in every directory that meets d there, and nowhere else. */
  lemma WithPageSeen(m: Memory, m': Memory, kdir: PageDirectory, d: PageDirectory, vaddr: u32, p: Page,
      e: PageDirectory, v: u32)
    requires InOrder(m, kdir) && WithPage(m, m', d, vaddr, p)
    ensures PageAt(m', e, v) ==
              if Meet(m, d, e, vaddr) && v / PAGE_SIZE == vaddr / PAGE_SIZE then p else PageAt(m, e, v)
  {
    SamePage(v, vaddr);
  }

  lemma SamePage(v: u32, w: u32)
    ensures v / PAGE_SIZE == w / PAGE_SIZE <==> TableIndex(v) == TableIndex(w) && EntryIndex(v) == EntryIndex(w)
  {
  }

  /** Directories that meet outside the kernel directory's tables are the same. */
  lemma Isolated(m: Memory, kdir: PageDirectory, d: PageDirectory, e: PageDirectory, vaddr: u32)
    requires InOrder(m, kdir) && Meet(m, d, e, vaddr) && !Meet(m, d, kdir, vaddr)
    ensures d == e
  {
  }

  /** Where two directories have the kernel's table, they translate alike. */
  lemma KernelAlike(m: Memory, kdir: PageDirectory, d: PageDirectory, e: PageDirectory, vaddr: u32)
    requires Meet(m, d, kdir, vaddr) && Meet(m, e, kdir, vaddr)
    ensures Translate(m, d, vaddr) == Translate(m, e, vaddr) == Translate(m, kdir, vaddr)
  {
  }

  /** A page mapped or unmapped in a table that is not the kernel's is seen by its own directory only. */
  lemma ChangeIsolated(m: Memory, m1: Memory, m': Memory, kdir: PageDirectory, d: PageDirectory, vaddr: u32, p: Page,
      e: PageDirectory, v: u32)
    requires InOrder(m, kdir) && WithTable(m, m1, d, vaddr) && WithPage(m1, m', d, vaddr, p)
    requires e in m.tables && e != d && !Meet(m, d, kdir, vaddr)
    ensures Translate(m', e, v) == Translate(m, e, v)
  {
    WithTableKeeps(m, m1, kdir, d, vaddr);
    WithPageSeen(m1, m', kdir, d, vaddr, p, e, v);
    hide OwnedOnce, Physical, PageAt, BlankPages;
    assert TableAt(m1.tables, e, TableIndex(vaddr)) == TableAt(m.tables, e, TableIndex(vaddr));
    if Meet(m, d, e, vaddr) {
      Isolated(m, kdir, d, e, vaddr);
    }
  }

  /** Directories that meet go on meeting. */
  lemma MeetStays(m: Memory, m1: Memory, m': Memory, d: PageDirectory, vaddr: u32, p: Page, e: PageDirectory,
      f: PageDirectory, v: u32)
    requires WithTable(m, m1, d, vaddr) && WithPage(m1, m', d, vaddr, p) && Meet(m, e, f, v)
    ensures Meet(m', e, f, v)
  {
  }

  // ----- cloning

  /** The tables a clone takes over: those that the kernel directory has too. */
  function KernelTables(src: seq<PageTable?>, kernel: seq<PageTable?>): (r: seq<PageTable?>)
    ensures |r| == |src|
    ensures forall i :: 0 <= i < |src| ==>
            r[i] == if i < |kernel| && src[i] != null && kernel[i] == src[i] then src[i] else null
  {
    seq(|src|, i requires 0 <= i < |src| =>
      if i < |kernel| && src[i] != null && kernel[i] == src[i] then src[i] else null)
  }

  lemma CloneKeeps(m: Memory, kdir: PageDirectory, src: PageDirectory, dir: PageDirectory)
    requires InOrder(m, kdir) && src in m.tables && dir !in m.tables
    ensures InOrder(m.(tables := m.tables[dir := KernelTables(m.tables[src], m.tables[kdir])]), kdir)
  {
    var m' := m.(tables := m.tables[dir := KernelTables(m.tables[src], m.tables[kdir])]);
    forall i: nat
      ensures TableAt(m'.tables, dir, i) != null ==> TableAt(m'.tables, dir, i) == TableAt(m.tables, kdir, i)
    {
    }
    forall e, i: nat | e in m.tables ensures TableAt(m'.tables, e, i) == TableAt(m.tables, e, i) {
    }
  }

  /** A clone translates addresses of the kernel's tables as the kernel directory does, and nothing else. */
  lemma CloneSees(m: Memory, kdir: PageDirectory, src: PageDirectory, dir: PageDirectory, v: u32)
    requires InOrder(m, kdir) && src in m.tables && dir !in m.tables
    ensures var m' := m.(tables := m.tables[dir := KernelTables(m.tables[src], m.tables[kdir])]);
      && (Meet(m', dir, kdir, v) <==> Meet(m, src, kdir, v))
      && Translate(m', dir, v) == if Meet(m, src, kdir, v) then Translate(m, kdir, v) else 0xFFFF_FFFF
  {
    hide OwnedOnce;
  }

  // ----- runs

  /**
   * What a call changes: a page is mapped, with a table made first if needed, or unmapped, or a
   * directory is cloned.
   */
  datatype Change =
    | Map(d: PageDirectory, vaddr: u32, page: Page, between: Memory)
    | Unmap(d: PageDirectory, vaddr: u32)
    | Clone(src: PageDirectory, dir: PageDirectory)

  ghost predicate Changed(m: Memory, m': Memory, kdir: PageDirectory, c: Change) {
    match c
    case Map(d, vaddr, p, m1) => WithTable(m, m1, d, vaddr) && p.present &&
      WithPage(m1, m', d, vaddr, p) && FrameMoved(m1, m', d, vaddr, p)
    case Unmap(d, vaddr) =>
      var p := PageAt(m, d, vaddr).(present := false, frame := INVALID_FRAME);
      WithPage(m, m', d, vaddr, p) && FrameMoved(m, m', d, vaddr, p)
    case Clone(src, dir) =>
      && kdir in m.tables && src in m.tables && dir !in m.tables
      && m' == m.(tables := m.tables[dir := KernelTables(m.tables[src], m.tables[kdir])])
  }

  lemma ChangeKeeps(m: Memory, m': Memory, kdir: PageDirectory, c: Change)
    requires InOrder(m, kdir) && Changed(m, m', kdir, c)
    ensures InOrder(m', kdir)
  {
    hide OwnedOnce, Shared, WithTable, WithPage, FrameMoved, KernelTables;
    match c
    case Map(d, vaddr, p, m1) =>
      WithTableKeeps(m, m1, kdir, d, vaddr);
      WithPageKeeps(m1, m', kdir, d, vaddr, p);
    case Unmap(d, vaddr) => WithPageKeeps(m, m', kdir, d, vaddr,
      PageAt(m, d, vaddr).(present := false, frame := INVALID_FRAME));
    case Clone(src, dir) => CloneKeeps(m, kdir, src, dir);
  }

  /** Directories that share a table for an address go on sharing it, whatever is mapped, unmapped or cloned. */
  lemma MeetKept(m: Memory, m': Memory, kdir: PageDirectory, c: Change, d: PageDirectory, e: PageDirectory, v: u32)
    requires Changed(m, m', kdir, c) && Meet(m, d, e, v)
    ensures Meet(m', d, e, v)
  {
    hide FrameMoved;
    match c
    case Map(a, vaddr, p, m1) => MeetStays(m, m1, m', a, vaddr, p, d, e, v);
    case Unmap(a, vaddr) =>
    case Clone(src, dir) =>
  }

  ghost predicate IsChangeRun(kdir: PageDirectory, ms: seq<Memory>, cs: seq<Change>) {
    |ms| == |cs| + 1 && forall i :: 0 <= i < |cs| ==> Changed(ms[i], ms[i + 1], kdir, cs[i])
  }

  /** At every point of every run each frame is owned once, and tables are shared with the kernel directory only. */
  lemma {:induction false} RunInOrder(kdir: PageDirectory, ms: seq<Memory>, cs: seq<Change>, n: nat)
    requires IsChangeRun(kdir, ms, cs) && InOrder(ms[0], kdir) && n < |ms|
    ensures InOrder(ms[n], kdir)
  {
    hide InOrder, Changed;
    if n > 0 {
      RunInOrder(kdir, ms, cs, n - 1);
      ChangeKeeps(ms[n - 1], ms[n], kdir, cs[n - 1]);
    }
  }

  /**
   * Two directories with the kernel's table for an address translate it alike ever after, and as
   * the kernel directory does.
   */
  lemma {:induction false} RunAlike(kdir: PageDirectory, ms: seq<Memory>, cs: seq<Change>, i: nat, n: nat,
      d: PageDirectory, e: PageDirectory, v: u32)
    requires IsChangeRun(kdir, ms, cs) && i <= n < |ms| && Meet(ms[i], d, kdir, v) && Meet(ms[i], e, kdir, v)
    ensures Meet(ms[n], d, kdir, v) && Meet(ms[n], e, kdir, v)
    ensures Translate(ms[n], d, v) == Translate(ms[n], e, v) == Translate(ms[n], kdir, v)
    decreases n
  {
    hide Changed, Meet, Translate;
    if i < n {
      RunAlike(kdir, ms, cs, i, n - 1, d, e, v);
      MeetKept(ms[n - 1], ms[n], kdir, cs[n - 1], d, kdir, v);
      MeetKept(ms[n - 1], ms[n], kdir, cs[n - 1], e, kdir, v);
    }
    KernelAlike(ms[n], kdir, d, e, v);
  }

  /** The change is made neither in directory e nor in one of the kernel's tables. */
  predicate Elsewhere(m: Memory, kdir: PageDirectory, c: Change, e: PageDirectory) {
    match c
    case Map(d, vaddr, _, _) => d != e && !Meet(m, d, kdir, vaddr)
    case Unmap(d, vaddr) => d != e && !Meet(m, d, kdir, vaddr)
    case Clone(_, _) => true
  }

  /** A run of changes outside the kernel's tables and outside directory e leaves every translation of e as it is. */
  lemma {:induction false} RunIsolated(kdir: PageDirectory, ms: seq<Memory>, cs: seq<Change>, n: nat, e: PageDirectory,
      v: u32)
    requires IsChangeRun(kdir, ms, cs) && InOrder(ms[0], kdir) && n < |ms| && e in ms[0].tables
    requires forall i :: 0 <= i < n ==> Elsewhere(ms[i], kdir, cs[i], e)
    ensures e in ms[n].tables && Translate(ms[n], e, v) == Translate(ms[0], e, v)
  {
    hide Changed, InOrder, Translate, Elsewhere;
    if n > 0 {
      RunIsolated(kdir, ms, cs, n - 1, e, v);
      RunInOrder(kdir, ms, cs, n - 1);
      StepIsolated(ms[n - 1], ms[n], kdir, cs[n - 1], e, v);
    }
  }

  lemma StepIsolated(m: Memory, m': Memory, kdir: PageDirectory, c: Change, e: PageDirectory, v: u32)
    requires InOrder(m, kdir) && Changed(m, m', kdir, c) && e in m.tables && Elsewhere(m, kdir, c, e)
    ensures e in m'.tables && Translate(m', e, v) == Translate(m, e, v)
  {
    hide OwnedOnce, Shared, FrameMoved, KernelTables;
    match c
    case Map(d, vaddr, p, m1) => ChangeIsolated(m, m1, m', kdir, d, vaddr, p, e, v);
    case Unmap(d, vaddr) =>
      SameTable(m, d, vaddr);
      ChangeIsolated(m, m, m', kdir, d, vaddr, PageAt(m, d, vaddr).(present := false, frame := INVALID_FRAME), e, v);
    case Clone(src, dir) =>
  }

  lemma SameTable(m: Memory, d: PageDirectory, vaddr: u32)
    requires TableAt(m.tables, d, TableIndex(vaddr)) != null
    ensures WithTable(m, m, d, vaddr)
  {
  }

  // ----- the driver

  class VirtualMemory {
    const frames: FrameMap
    const kdir: PageDirectory

    ghost var dirs: set<PageDirectory>
    ghost var tabs: set<PageTable>

    ghost function State(): Memory
      reads this, frames, frames.index, dirs, tabs
    {
      Memory(map d | d in dirs :: d.tables, map t | t in tabs :: t.pages, Marked(frames.index[..]))
    }

    ghost predicate Valid()
      reads this, frames, frames.index, dirs, tabs
    {
      frames.Valid() && InOrder(State(), kdir)
    }

    /** The start of vmm_init: an empty kernel directory. */
    constructor (frames: FrameMap)
      requires frames.Valid()
      ensures Valid() && this.frames == frames && fresh(kdir) && dirs == {kdir} && tabs == {}
      ensures forall i: nat :: TableAt(State().tables, kdir, i) == null
      ensures frames.index[..] == old(frames.index[..])
    {
      this.frames := frames;
      kdir := new PageDirectory();
      new;
      dirs, tabs := {kdir}, {};
    }

    /** _create_page_table, where the directory has none for the address. */
    method CreatePageTable(d: PageDirectory, vaddr: u32)
      requires Valid() && d in dirs
      modifies this`tabs, d
      ensures Valid() && dirs == old(dirs) && WithTable(old(State()), State(), d, vaddr)
      ensures old(TableAt(State().tables, d, TableIndex(vaddr))) == null ==>
                fresh(TableAt(State().tables, d, TableIndex(vaddr)))
    {
      var i := TableIndex(vaddr);
      ghost var m := State();
      assert m.tables[d] == d.tables;
      if d.tables[i] == null {
        var table := new PageTable();
        d.tables := d.tables[i := table];
        tabs := tabs + {table};
        assert State().tables == m.tables[d := m.tables[d][i := table]];
        assert State().pages == m.pages[table := BlankPages()];
      }
      WithTableKeeps(m, State(), kdir, d, vaddr);
    }

    /** Rewrite the page entry of an address whose frame has just been marked or unmarked. */
    method SetEntry(d: PageDirectory, vaddr: u32, p: Page, ghost m: Memory)
      requires d in dirs && InOrder(m, kdir) && State() == m.(marked := Marked(frames.index[..])) && frames.Valid()
      requires TableAt(m.tables, d, TableIndex(vaddr)) != null && FrameMoved(m, State(), d, vaddr, p)
      modifies TableAt(m.tables, d, TableIndex(vaddr))
      ensures Valid() && State().marked == old(State().marked) && WithPage(m, State(), d, vaddr, p)
    {
      assert m.tables[d] == d.tables;
      var t := d.tables[TableIndex(vaddr)];
      assert t == TableAt(m.tables, d, TableIndex(vaddr)) && t in m.pages && m.pages[t] == t.pages;
      t.pages := t.pages[EntryIndex(vaddr) := p];
      assert State().pages == m.pages[t := m.pages[t][EntryIndex(vaddr) := p]];
      assert State().tables == m.tables;
      WithPageKeeps(m, State(), kdir, d, vaddr, p);
    }

    /** vmm_map_page; it panics when no frame is left. */
    method MapPage(d: PageDirectory, vaddr: u32, kernel: bool, writeable: bool)
      returns (ok: bool, frame: nat, ghost m: Memory)
      requires Valid() && d in dirs && vaddr % PAGE_SIZE == 0 && !PageAt(State(), d, vaddr).present
      modifies this`tabs, d, TableAt(State().tables, d, TableIndex(vaddr)), frames, frames.index
      ensures dirs == old(dirs) && WithTable(old(State()), m, d, vaddr)
      ensures TableAt(m.tables, d, TableIndex(vaddr)) == old(TableAt(State().tables, d, TableIndex(vaddr)))
              || fresh(TableAt(m.tables, d, TableIndex(vaddr)))
      ensures ok ==> Valid() && WithPage(m, State(), d, vaddr, Page(true, writeable, !kernel, frame))
      ensures ok ==> State().marked == old(State().marked) + {frame} && IsLeastFree(old(State().marked), frame)
      ensures ok ==> Changed(old(State()), State(), kdir, Map(d, vaddr, Page(true, writeable, !kernel, frame), m))
      ensures !ok ==> forall f: nat :: f < 32 * frames.index.Length ==> f in old(State().marked)
    {
      hide OwnedOnce, Shared, WithPage, Marked, BlankPages;
      CreatePageTable(d, vaddr);
      m := State();
      ok, frame := frames.AllocFrame();
      if ok {
        assert State() == m.(marked := Marked(frames.index[..]));
        SetEntry(d, vaddr, Page(true, writeable, !kernel, frame), m);
      }
    }

    /** vmm_unmap_page. */
    method UnmapPage(d: PageDirectory, vaddr: u32)
      requires Valid() && d in dirs && vaddr % PAGE_SIZE == 0 && PageAt(State(), d, vaddr).present
      modifies TableAt(State().tables, d, TableIndex(vaddr)), frames, frames.index
      ensures Valid() && dirs == old(dirs) && tabs == old(tabs)
      ensures WithPage(old(State()), State(), d, vaddr,
              old(PageAt(State(), d, vaddr)).(present := false, frame := INVALID_FRAME))
      ensures State().marked == old(State().marked) - {old(PageAt(State(), d, vaddr)).frame}
      ensures Changed(old(State()), State(), kdir, Unmap(d, vaddr))
    {
      ghost var m := State();
      assert m.tables[d] == d.tables;
      var t := d.tables[TableIndex(vaddr)];
      assert t == TableAt(m.tables, d, TableIndex(vaddr)) && t in m.pages && m.pages[t] == t.pages;
      var p := t.pages[EntryIndex(vaddr)];
      assert Holds(m.pages, t, EntryIndex(vaddr), p.frame);
      frames.FreeFrame(p.frame);
      assert State() == m.(marked := Marked(frames.index[..]));
      SetEntry(d, vaddr, p.(present := false, frame := INVALID_FRAME), m);
    }

    /** vmm_get_phys_addr. */
    method GetPhysAddr(d: PageDirectory, vaddr: u32) returns (phys: int)
      requires Valid() && d in dirs
      ensures phys == Translate(State(), d, vaddr)
    {
      ghost var m := State();
      assert m.tables[d] == d.tables;
      var t := d.tables[TableIndex(vaddr)];
      assert t == TableAt(m.tables, d, TableIndex(vaddr));
      if t != null {
        assert t in m.pages && m.pages[t] == t.pages;
        var page := t.pages[EntryIndex(vaddr)];
        if page.present {
          return page.frame * PAGE_SIZE + vaddr % PAGE_SIZE;
        }
      }
      phys := 0xFFFF_FFFF;
    }

    /** vmm_clone_dir. */
    method CloneDir(src: PageDirectory) returns (dir: PageDirectory)
      requires Valid() && src in dirs
      modifies this`dirs
      ensures Valid() && fresh(dir) && dirs == old(dirs) + {dir} && tabs == old(tabs)
      ensures State() == old(State()).(tables :=
              old(State()).tables[dir := KernelTables(old(State()).tables[src], old(State()).tables[kdir])])
      ensures Changed(old(State()), State(), kdir, Clone(src, dir))
    {
      ghost var m := State();
      assert m.tables[src] == src.tables && m.tables[kdir] == kdir.tables;
      dir := new PageDirectory();
      for i := 0 to ENTRIES
        invariant |dir.tables| == ENTRIES && State() == m && dirs == old(dirs)
        invariant forall j :: 0 <= j < i ==> dir.tables[j] == KernelTables(m.tables[src], m.tables[kdir])[j]
        invariant forall j :: i <= j < ENTRIES ==> dir.tables[j] == null
      {
        if src.tables[i] != null && kdir.tables[i] == src.tables[i] {
          dir.tables := dir.tables[i := src.tables[i]];
        }
      }
      dirs := dirs + {dir};
      assert dir.tables == KernelTables(m.tables[src], m.tables[kdir]);
      assert State().tables == m.tables[dir := dir.tables] && State().pages == m.pages && State().marked == m.marked;
      CloneKeeps(m, kdir, src, dir);
    }

    /** The first loop of vmm_init: the first megabyte, page by page. */
    method BootMap() returns (ok: bool)
      requires Valid() && dirs == {kdir} && State().marked == {} && 32 * frames.index.Length >= 256
      requires forall i: nat :: TableAt(State().tables, kdir, i) == null
      modifies this`tabs, kdir, frames, frames.index
      ensures ok && Valid() && dirs == {kdir}
      ensures forall v: u32 :: v < 0x10_0000 ==> Translate(State(), kdir, v) == v
      ensures forall f: nat :: f in State().marked <==> f < 256
    {
      hide InOrder, Booted, FrameMap.Valid;
      ok := true;
      var addr := 0;
      BootStart(State(), kdir);
      while addr < 0x10_0000
        invariant 0 <= addr <= 0x10_0000 && addr % PAGE_SIZE == 0 && ok
        invariant Valid() && dirs == {kdir} && Booted(State(), kdir, addr)
        invariant TableAt(State().tables, kdir, 0) == null || fresh(TableAt(State().tables, kdir, 0))
      {
        ok := BootOne(addr);
        addr := addr + PAGE_SIZE;
      }
      BootDone(State(), kdir);
    }

    /** One turn of that loop. */
    method BootOne(addr: u32) returns (ok: bool)
      requires Valid() && dirs == {kdir} && Booted(State(), kdir, addr) && 32 * frames.index.Length >= 256
      requires addr < 0x10_0000 && addr % PAGE_SIZE == 0
      modifies this`tabs, kdir, TableAt(State().tables, kdir, 0), frames, frames.index
      ensures ok && Valid() && dirs == {kdir} && Booted(State(), kdir, addr + PAGE_SIZE)
      ensures TableAt(State().tables, kdir, 0) == old(TableAt(State().tables, kdir, 0))
              || fresh(TableAt(State().tables, kdir, 0))
    {
      hide Booted, FrameMap.Valid, PageAt, OwnedOnce, Shared;
      ghost var m0 := State();
      BootNext(m0, kdir, addr);
      var frame;
      ghost var m;
      ok, frame, m := MapPage(kdir, addr, false, false);
      BootFrames(m0, kdir, addr, ok, 32 * frames.index.Length);
      BootStep(m0, m, State(), kdir, addr, frame);
    }
  }

  /** The pages below addr are mapped to the frames of their own numbers, and nothing else is. */
  ghost predicate Booted(m: Memory, kdir: PageDirectory, addr: nat) {
    && (forall f: nat :: f in m.marked <==> f < addr / PAGE_SIZE)
    && forall v: u32 :: v < 0x10_0000 ==> PageAt(m, kdir, v) == BootPage(v, addr)
  }

  lemma BootStart(m: Memory, kdir: PageDirectory)
    requires m.marked == {} && forall i: nat :: TableAt(m.tables, kdir, i) == null
    ensures Booted(m, kdir, 0)
  {
  }

  lemma BootNext(m: Memory, kdir: PageDirectory, addr: u32)
    requires Booted(m, kdir, addr) && addr < 0x10_0000 && addr % PAGE_SIZE == 0
    ensures !PageAt(m, kdir, addr).present && TableIndex(addr) == 0
  {
    hide PageAt;
  }

  /** Some of the first 256 frames is free. */
  lemma BootFrames(m: Memory, kdir: PageDirectory, addr: u32, ok: bool, n: nat)
    requires Booted(m, kdir, addr) && addr < 0x10_0000 && n >= 256
    requires !ok ==> forall f: nat :: f < n ==> f in m.marked
    ensures ok
  {
    hide PageAt;
    assert (addr / PAGE_SIZE) as nat !in m.marked;
  }

  /** The least frame that is not marked. */
  ghost predicate IsLeastFree(marked: set<nat>, frame: nat) {
    frame !in marked && forall f: nat :: f < frame ==> f in marked
  }

  /** The entry of an address of the first megabyte when the pages below addr are mapped. */
  function BootPage(v: u32, addr: nat): Page {
    if v / PAGE_SIZE < addr / PAGE_SIZE then Page(true, false, true, v / PAGE_SIZE)
    else Page(false, false, false, INVALID_FRAME)
  }

  lemma BootStep(m0: Memory, m: Memory, m': Memory, kdir: PageDirectory, addr: u32, frame: nat)
    requires InOrder(m0, kdir) && WithTable(m0, m, kdir, addr)
    requires WithPage(m, m', kdir, addr, Page(true, false, true, frame))
    requires addr < 0x10_0000 && addr % PAGE_SIZE == 0 && IsLeastFree(m0.marked, frame)
    requires m'.marked == m0.marked + {frame}
    requires Booted(m0, kdir, addr)
    ensures Booted(m', kdir, addr + PAGE_SIZE)
  {
    assert (addr / PAGE_SIZE) as nat !in m0.marked;
    assert frame == addr / PAGE_SIZE;
    WithTableKeeps(m0, m, kdir, kdir, addr);
    assert kdir in m0.tables;
    hide InOrder, PageAt, WithTable, WithPage;
    forall v: u32 | v < 0x10_0000 ensures PageAt(m', kdir, v) == BootPage(v, addr + PAGE_SIZE) {
      WithPageSeen(m, m', kdir, kdir, addr, Page(true, false, true, frame), kdir, v);
      assert Meet(m, kdir, kdir, addr);
    }
  }

  /** The mapping of the first megabyte is the identity. */
  lemma BootDone(m: Memory, kdir: PageDirectory)
    requires Booted(m, kdir, 0x10_0000)
    ensures forall v: u32 :: v < 0x10_0000 ==> Translate(m, kdir, v) == v
    ensures forall f: nat :: f in m.marked <==> f < 256
  {
    hide PageAt;
  }
}
